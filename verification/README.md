# PolyStudio backend core in Dafny

This project models the sequential core of the PolyStudio Python backend and
proves properties of the model. PolyStudio is a chat-driven image studio: a
LangGraph agent answers the user, generates or edits images with external
providers, and the browser renders the conversation and a canvas.

What is modelled:

- **The event-stream producer** (`backend/app/services/stream_processor.py`,
  modules `EventStream` and `StreamProcessing`).
  - It turns the agent's output chunks into `text/event-stream` records
    `data: <json>\n\n`, the format of section 9.2 of the WHATWG HTML Living
    Standard.
  - It keeps a per-call-id argument map and a log text buffer across chunks.
  - `StreamProcessor` is a class. Each of its handlers is a method proved
    equal to a specification function over the processor's state.
- **The canvas history store** (`backend/app/services/history_service.py`,
  module `History`).
  - The JSON file is a state field of class `HistoryService`: missing, blank,
    corrupt, unreadable, or a stored JSON value of any shape.
  - Where Python raises on a value of the wrong shape, an operation answers
    None, and the route answers 500.
  - The store supports upsert by id, delete by id, and tolerant loading with a
    backup of a corrupt file.
- **The image tools' selection logic** (`backend/app/tools/volcano_image_generation.py`
  and `backend/app/tools/image_generation.py`; modules `ImageFiles`, `Volcano`
  and `SiliconFlow`).
  - `parse_size` and its aspect-ratio table.
  - The local/public classification in `prepare_image_input` and its extension
    table. Its output is an RFC 2397 data URL.
  - The stored file names of `download_and_save_image`, including the
    JPEG/PNG choice by transparency.
  - The precedence of URL extraction from a provider answer, the download
    loop, and the result objects.
- **The chat routes** (`backend/app/routers/chat.py`, module `ChatRoutes`).
  - The history handed to the agent.
  - Upload validation and the upload file name and URL.
  - The answer of the delete route.
- **Python built-ins the core relies on** (modules `Common` and `PyPath`).
  - String built-ins: `str.split`, `strip`, `lower`/`upper`, `int()` and
    `str()` on integers.
  - Path and URL built-ins: `os.path.splitext`, `pathlib`'s `suffix`, and
    `urllib.parse.urlparse` with `hostname`.
  - Each is stated as the source uses it.

What the world contributes is passed in as a parameter:

- the JSON encoder `dumps`;
- the base64 encoder `encode`;
- the agent's failure;
- the provider's HTTP answer;
- what Pillow made of the downloaded bytes;
- whether creating the images directory and a file write succeeded;
- time stamps, short ids and environment values;
- the files present under the backend directory.

## Model

| member | source | states |
|---|---|---|
| StreamProcessing.RecursionLimitSetting | backend/app/services/stream_processor.py:31 | Specified by `RecursionLimitIsInt`. |
| StreamProcessing.RecursionLimitIsInt | backend/app/services/stream_processor.py:31 | The setting is `int()` of the environment value, or of the default text "200" when unset. |
| StreamProcessing.DefaultLimitParses | backend/app/services/stream_processor.py:31 | The default text "200" is read by `int()` as 200. |
| StreamProcessing.StreamProcessor.constructor | backend/app/services/stream_processor.py:24-31 | A new processor keeps its session id. Its recursion limit is `int()` of the environment value, 200 when unset. It starts with empty content, no tool calls, an empty text buffer and an empty argument map. |
| StreamProcessing.ConvertOneRoles | backend/app/services/stream_processor.py:52-57 | A history entry yields one message exactly when its role is "user" or "assistant", and a user entry becomes a human message. Missing content becomes "". A kept entry is rejected exactly when its content is neither a string nor a list of strings and dicts. |
| StreamProcessing.ConvertedAppend | backend/app/services/stream_processor.py:52-57 | Converting a concatenated history converts each part in turn, so history order is kept. It fails exactly when a part fails. |
| StreamProcessing.StreamProcessor.ConvertHistory | backend/app/services/stream_processor.py:52-57 | The conversion loop yields the converted history, or stops at the first rejected entry. |
| StreamProcessing.ConvertedFails | backend/app/services/stream_processor.py:52-57 | The conversion fails exactly when some entry is rejected. |
| StreamProcessing.ConvertOne | backend/app/services/stream_processor.py:53-56 | Specified by `ConvertOneRoles`. |
| StreamProcessing.Converted | backend/app/services/stream_processor.py:52-57 | Specified by `ConvertedAppend` and `ConvertedFails`. |
| StreamProcessing.DeltaText | backend/app/services/stream_processor.py:189-203 | None or "" content yields no delta. Non-empty text yields exactly that text, unchanged. A delta is never empty. |
| StreamProcessing.NextBuffer | backend/app/services/stream_processor.py:205-212 | The buffer after a delta is `old + text` when no flush is due, and is emptied otherwise. A flush is due on a line feed, or on more than 50 characters that include a sentence end. The result never has a flush due. |
| StreamProcessing.StepKeepsBuffer | backend/app/services/stream_processor.py:64-78 | Over any sequence of chunks, the text buffer never holds a flush that is due. |
| StreamProcessing.MessagesKeepBuffer | backend/app/services/stream_processor.py:116-139 | Over any list of messages, the text buffer never holds a flush that is due. |
| StreamProcessing.InvalidCallIgnored | backend/app/services/stream_processor.py:239-243 | A tool call whose name or id is missing or empty yields no event and leaves the argument map as it was. |
| StreamProcessing.ValidCallEvent | backend/app/services/stream_processor.py:245-265 | A valid call's event carries the id's previous arguments (`{}` on first sighting) updated with its own. Empty args leave them as they were. |
| StreamProcessing.ApplyValidCall | backend/app/services/stream_processor.py:245-254 | A valid call creates the id's entry if absent. It then merges non-empty args into that entry, in the handler's two steps. |
| StreamProcessing.ArgsAccumulate | backend/app/services/stream_processor.py:226-265 | After a list of calls, every id that some valid call carried holds its earlier arguments updated by each such call in order. Every other id keeps its entry or its absence. |
| StreamProcessing.CallEventsFollowValidCalls | backend/app/services/stream_processor.py:226-265 | There is one `tool_call` event per valid call, in list order, with that call's id and name. |
| StreamProcessing.ValidCalls | backend/app/services/stream_processor.py:239-243 | The kept calls are valid and are no more than the given ones. |
| StreamProcessing.ChunkEventsCount | backend/app/services/stream_processor.py:268-295 | There is exactly one `tool_call_chunk` event per chunk with non-empty args, in order. |
| StreamProcessing.ChunkIndexDefault | backend/app/services/stream_processor.py:280-295 | A chunk without "index" is reported with index 0. A present index is kept as it is. The args are carried unchanged. |
| StreamProcessing.AIMessageChunkEvents | backend/app/services/stream_processor.py:187-295 | Within one AIMessageChunk the events are: at most one delta first, carrying the content; then one tool_call per valid call; then one tool_call_chunk per chunk with args. The count is exactly the sum. |
| StreamProcessing.OrderedOfRanks | backend/app/services/stream_processor.py:187-295 | Deltas, then calls, then chunks form an ordered event list. |
| StreamProcessing.ToolMessageEvents | backend/app/services/stream_processor.py:174-186 | A ToolMessage yields exactly one `tool_result` with its id and content. It deletes that id's arguments, keeps every other id's entry, and keeps the buffer. |
| StreamProcessing.ValuesChunkNotDict | backend/app/services/stream_processor.py:155-168 | A "values" chunk whose data is not a dict yields one error event without traceback and changes no state. |
| StreamProcessing.StreamProcessor.HandleMessage | backend/app/services/stream_processor.py:170-305 | The handler yields the events of `MessageStep` and moves the state to its new state. Session id, limit, content and tool-call list are kept. |
| StreamProcessing.StreamProcessor.HandleToolCalls | backend/app/services/stream_processor.py:226-265 | The loop moves the argument map to `ArgsAfter` and yields `CallEvents`. Nothing else changes. |
| StreamProcessing.StreamProcessor.ToolCallChunkEvents | backend/app/services/stream_processor.py:268-295 | The loop yields `ChunkEvents` of the chunks. |
| StreamProcessing.StreamProcessor.HandleMessages | backend/app/services/stream_processor.py:135-139 | The message loop yields the concatenated events of each message, in order, and threads the state. |
| StreamProcessing.StreamProcessor.HandleChunk | backend/app/services/stream_processor.py:100-153 | `_handle_chunk` yields the events of `ChunkStep` for tuples, lists, iterables and direct messages, and moves the state. |
| StreamProcessing.RouteOf | backend/app/services/stream_processor.py:104-153 | Specified by `ValuesChunkNotDict`: tuples, lists, iterables and direct messages are delivered; a "values" chunk that is not a dict fails. |
| StreamProcessing.ChunkStep | backend/app/services/stream_processor.py:100-153 | Specified by `ValuesChunkNotDict` and `StepKeepsBuffer`. |
| StreamProcessing.MessageStep | backend/app/services/stream_processor.py:170-295 | Specified by `ToolMessageEvents`, `AIMessageChunkEvents`, `InvalidCallIgnored`, `ValidCallEvent`, `ArgsAccumulate` and `MessagesKeepBuffer`. |
| StreamProcessing.StreamProcessor.Serialise | backend/app/services/stream_processor.py:185 | The result holds one `data: <json>\n\n` record per event, in order. |
| StreamProcessing.RecordsShape | backend/app/services/stream_processor.py:221 | The i-th record frames the JSON of the i-th event. |
| StreamProcessing.RecordsAppend | backend/app/services/stream_processor.py:73-77 | The records of concatenated events are the concatenated records. |
| StreamProcessing.PayloadsShape | backend/app/services/stream_processor.py:265 | The i-th payload is the JSON of the i-th event. |
| StreamProcessing.StreamProcessor.ProcessStream | backend/app/services/stream_processor.py:33-98 | The records are those of every chunk's events, followed by `[DONE]` after a normal end or by one error record. The buffer is emptied at a normal end. A rejected history gives one error record and no other, and changes no state. |
| StreamProcessing.DoneOnlyAtEnd | backend/app/services/stream_processor.py:80-98 | The last record is `[DONE]` exactly when the agent did not raise. No earlier record is `[DONE]`. |
| StreamProcessing.FrameInjective | backend/app/services/stream_processor.py:87 | Two equal records frame the same payload. |
| StreamProcessing.WireRoundTrip | backend/app/services/stream_processor.py:33-98 | A client parsing the stream reads one data item per event, in order, then `[DONE]` or the error, provided serialised events hold no CR or LF. |
| StreamProcessing.FramedPayloads | backend/app/services/stream_processor.py:87-98 | Every record, the tail included, frames one payload without CR or LF. |
| StreamProcessing.TailFrame | backend/app/services/stream_processor.py:87-98 | The tail frames `[DONE]` or the serialised error, with no CR or LF. |
| EventStream.DoneFrame | backend/app/services/stream_processor.py:87 | The closing record is the frame of `[DONE]`. |
| EventStream.Lines | backend/app/services/stream_processor.py:98 | Lines end at CRLF, LF or CR, and no line holds either character. |
| EventStream.LinesHead | backend/app/services/stream_processor.py:98 | A line followed by LF is the first line of the text. |
| EventStream.LinesHeadCr | backend/app/services/stream_processor.py:98 | CRLF ends one line, not two. A CR not followed by LF ends a line. |
| EventStream.ParseFrames | backend/app/services/stream_processor.py:185 | Frames of payloads without CR or LF parse back to exactly those payloads. |
| EventStream.ParseRecords | backend/app/services/stream_processor.py:221 | Records that each frame one payload without CR or LF parse back to exactly those payloads. |
| EventStream.ConcatOfFrames | backend/app/services/stream_processor.py:265 | Concatenating the records of payloads is the framed stream text. |
| EventStream.LinesOfFrame | backend/app/services/stream_processor.py:295 | A frame contributes its data line and one blank line. |
| History.Initialised | backend/app/services/history_service.py:26-43 | A file holding valid JSON is kept, whatever its shape. A missing, blank, corrupt or unreadable file becomes [] when the disk takes the write, and stays as it was otherwise. |
| History.HistoryService.constructor | backend/app/services/history_service.py:22-43 | The store starts from the initialised file, with no backup. |
| History.HistoryService.LoadData | backend/app/services/history_service.py:45-80 | Loading returns the stored JSON value, whatever its shape, or [] for a missing, blank, corrupt or unreadable file. A corrupt file is backed up and reset to [] only when the disk takes the writes. Any other failure changes nothing. |
| History.HistoryService.GetCanvases | backend/app/services/history_service.py:82-83 | It answers as loading does. |
| History.FirstIndex | backend/app/services/history_service.py:88-92 | The result is the position of the first object entry with the id, or -1 when none has it. |
| History.HistoryService.FindIndex | backend/app/services/history_service.py:88-92 | The search loop with `break` returns the first matching position, or -1. It raises exactly when it reaches a non-object entry before a match, or any entry while the canvas is not an object. |
| History.SaveStored | backend/app/services/history_service.py:86-99 | Specified by `SaveKeepsObjects`, `SaveIdempotent` and `NonObjectPoisons`. A non-list value always raises. |
| History.HistoryService.SaveCanvas | backend/app/services/history_service.py:85-100 | The canvas given comes back exactly when `SaveStored` of the loaded value does not raise. The file then becomes the upserted list if the disk takes the write. A raising save leaves the file as loaded. |
| History.Upsert | backend/app/services/history_service.py:88-97 | Specified by `UpsertReplaces`, `UpsertInserts`, `UpsertContains` and `UpsertIdempotent`. |
| History.UpsertReplaces | backend/app/services/history_service.py:94-95 | A present id is replaced at its first position. The length and every other entry are kept. |
| History.UpsertInserts | backend/app/services/history_service.py:96-97 | A new id goes in front. The rest shift by one and the length grows by one. |
| History.UpsertContains | backend/app/services/history_service.py:99-100 | The saved canvas is in the stored list. |
| History.UpsertIdempotent | backend/app/services/history_service.py:88-97 | Saving the same canvas object twice stores what saving it once stores. |
| History.FirstIndexOfUpdate | backend/app/services/history_service.py:94-95 | Writing a matching canvas at the first match keeps that match first. |
| History.SaveIdempotent | backend/app/services/history_service.py:85-100 | A save of a canvas object that succeeded, repeated, succeeds and stores the same value again. |
| History.SaveKeepsObjects | backend/app/services/history_service.py:88-99 | On a list of objects, saving a canvas object never raises, and the list stays a list of objects. |
| History.DeleteStored | backend/app/services/history_service.py:103-105 | Specified by `DeleteKeepsObjects` and `NonObjectPoisons`. An empty dict or string gives [], any other non-list raises. |
| History.HistoryService.DeleteCanvas | backend/app/services/history_service.py:102-106 | True comes back exactly when `DeleteStored` of the loaded value does not raise. The file then becomes the filtered list if the disk takes the write. |
| History.Without | backend/app/services/history_service.py:104 | Specified by `WithoutMembers`, `WithoutAppend` and `WithoutUnknown`. |
| History.WithoutMembers | backend/app/services/history_service.py:104 | The kept entries are exactly those that are not objects with the id, and the list never grows. |
| History.WithoutAppend | backend/app/services/history_service.py:104 | Deleting distributes over concatenation, so the original order is kept. |
| History.WithoutUnknown | backend/app/services/history_service.py:104 | An unknown id leaves the list unchanged. |
| History.DeleteAfterSave | backend/app/services/history_service.py:85-106 | Deleting right after saving a canvas gives what deleting alone gives. |
| History.DeleteKeepsObjects | backend/app/services/history_service.py:104-105 | On a list of objects, deleting never raises, and the list stays a list of objects. |
| History.NonObjectPoisons | backend/app/services/history_service.py:88-105 | As written, the body `5` saved on an empty store is stored, and every later save and delete then raises. |
| History.SaveIntended | backend/app/routers/chat.py:31-40 | A body that is not an object is refused; an object is saved as before. |
| History.IntendedKeepsObjects | backend/app/routers/chat.py:31-40 | With the refusal, a store holding a list of objects keeps holding one, and a delete afterwards does not raise. |
| Volcano.ParseSize | backend/app/tools/volcano_image_generation.py:63-96 | Specified by `TokenAnyCase`, `RatioSize`, `CustomRoundTrip`, `DefaultSize`, `RenderRoundTrip` and `ParseSizeIdempotent`. |
| Volcano.TokenAnyCase | backend/app/tools/volcano_image_generation.py:74-75 | "1K", "2K" and "4K" in any letter case are returned upper-cased. |
| Volcano.TokensUpper | backend/app/tools/volcano_image_generation.py:74-75 | The API tokens are already upper case. |
| Volcano.RatioSize | backend/app/tools/volcano_image_generation.py:78-80 | Each aspect-ratio key is sent as its fixed pixel pair. |
| Volcano.RatioExamples | backend/app/tools/volcano_image_generation.py:51-60 | "16:9" is sent as "2560x1440" and "21:9" as "3024x1296". |
| Volcano.CustomRoundTrip | backend/app/tools/volcano_image_generation.py:83-89 | `str(W)` + 'x' or 'X' + `str(H)` is read as W by H. |
| Volcano.CustomPadded | backend/app/tools/volcano_image_generation.py:83-89 | Whitespace around either number is allowed. |
| Volcano.SizeOfSides | backend/app/tools/volcano_image_generation.py:83-89 | Two sides that `int()` reads, around one separator, are a custom size. Such text is no token and no ratio. |
| Volcano.CustomOfSides | backend/app/tools/volcano_image_generation.py:84-89 | Two sides around one separator that `int()` reads give that width and height. |
| Volcano.PaddedSplit | backend/app/tools/volcano_image_generation.py:84 | After replacing 'X', splitting on 'x' gives exactly the two sides. |
| Volcano.DefaultSize | backend/app/tools/volcano_image_generation.py:93-96 | Text that is no token, no ratio and no `WxH` gives "2048x2048". |
| Volcano.DefaultOfThreeParts | backend/app/tools/volcano_image_generation.py:85 | "1x2x3" gives "2048x2048". |
| Volcano.DefaultOfMissingHeight | backend/app/tools/volcano_image_generation.py:86-91 | "2x" gives "2048x2048". |
| Volcano.DefaultOfWord | backend/app/tools/volcano_image_generation.py:83-96 | "abc" gives "2048x2048". |
| Volcano.RenderRoundTrip | backend/app/tools/volcano_image_generation.py:63-96 | Reading the text sent for a size gives that size back. |
| Volcano.ParseSizeIdempotent | backend/app/tools/volcano_image_generation.py:63-96 | `parse_size` of its own output is that output. |
| Volcano.NotToken | backend/app/tools/volcano_image_generation.py:74 | Text with a separator is no token. |
| Volcano.NotRatio | backend/app/tools/volcano_image_generation.py:78 | Text without ':' is no ratio. |
| Volcano.FormatOfExtension | backend/app/tools/volcano_image_generation.py:127-143 | The table yields one of the known formats. Unknown extensions give jpeg. |
| Volcano.FormatOfFile | backend/app/tools/volcano_image_generation.py:127 | A file's format is its extension's, in either letter case. |
| Volcano.DataUrlRoundTrip | backend/app/tools/volcano_image_generation.py:147 | The format and payload read back from the data URL. |
| Volcano.ReadImageDataUrl | backend/app/tools/volcano_image_generation.py:117-150 | A file is read exactly when it is present. It is sent as a data URL of its format and encoded bytes. |
| Volcano.PrepareImageInput | backend/app/tools/volcano_image_generation.py:99-193 | Specified by `StoragePathInput`, `PlainUrlInput` and `ReadImageDataUrl`. |
| Volcano.LocalFile | backend/app/tools/volcano_image_generation.py:114-193 | Specified by `LocalFileOfStorage` and `LocalFileOfParsed`. |
| Volcano.StoragePathInput | backend/app/tools/volcano_image_generation.py:114-118 | A "/storage/..." path is read from "storage/..." under the backend directory. |
| Volcano.LocalFileOfStorage | backend/app/tools/volcano_image_generation.py:114-116 | A "/storage/..." path names "storage/...". |
| Volcano.LocalFileOfParsed | backend/app/tools/volcano_image_generation.py:152-193 | A parsed URL is local exactly when its host is local and its path is under "/storage/". Otherwise it raises ValueError. |
| Volcano.PlainUrlInput | backend/app/tools/volcano_image_generation.py:152-193 | `scheme://host[:port]path` is read locally exactly for a local host and a path under "/storage/". A localhost URL outside "/storage/" is rejected. |
| Volcano.ParsedPlain | backend/app/tools/volcano_image_generation.py:153 | A plain URL parses into its own scheme, netloc and path. |
| Volcano.UrlsOf | backend/app/tools/volcano_image_generation.py:377 | The comprehension keeps only truthy URLs and never grows. Specified in full by `UrlsOfFails`, `UrlsOfOne` and `UrlsOfAppend`. |
| Volcano.UrlsOfFails | backend/app/tools/volcano_image_generation.py:377 | The comprehension raises exactly when some item is not an object. |
| Volcano.UrlsOfOne | backend/app/tools/volcano_image_generation.py:377 | One object gives its "url" when that is truthy, and nothing otherwise. |
| Volcano.UrlsOfAppend | backend/app/tools/volcano_image_generation.py:377 | Two lists in a row succeed exactly when both do, and give the first list's URLs followed by the second's. |
| Volcano.ExtractUrls | backend/app/tools/volcano_image_generation.py:374-381 | Specified by `DataListFirst`, `ImagesListNext` and `ExtractedUrls`. |
| Volcano.DataListFirst | backend/app/tools/volcano_image_generation.py:376-381 | A list under "data" decides alone: the URLs are that list's, and nothing under "images" or "url" changes them. |
| Volcano.ImagesListNext | backend/app/tools/volcano_image_generation.py:378-381 | Without a list under "data", a list under "images" decides: the URLs are that list's, and nothing under "url" changes them. |
| Volcano.ExtractedUrls | backend/app/tools/volcano_image_generation.py:374-382 | URLs from a list are truthy. A top-level "url" is taken as it is. |
| Volcano.CollectAll | backend/app/tools/volcano_image_generation.py:388-394 | With truthy URLs the k-th collected path is the k-th download. |
| Volcano.CollectAppend | backend/app/tools/volcano_image_generation.py:388-394 | Collecting over a concatenation collects each part. |
| Volcano.SaveAll | backend/app/tools/volcano_image_generation.py:388-394 | The download loop yields `SavedFrom`. |
| Volcano.SaveUrl | backend/app/tools/volcano_image_generation.py:393 | A download; a non-string value comes back as it is. |
| Volcano.SavedFromAll | backend/app/tools/volcano_image_generation.py:388-394 | The k-th saved path is the k-th URL's download. It is named after `prompt_<k+1>` when several images were asked for. |
| Volcano.GenerateOutcome | backend/app/tools/volcano_image_generation.py:363-425 | Specified by `GenerateOne` and `GenerateMany`. |
| Volcano.GenerateOne | backend/app/tools/volcano_image_generation.py:397-405 | One URL gives a result whose `image_url` and `local_path` are its download, beside the original. |
| Volcano.GenerateMany | backend/app/tools/volcano_image_generation.py:406-415 | Several URLs give every download in order, the originals and the count. |
| Volcano.ManyResult | backend/app/tools/volcano_image_generation.py:406-415 | The several-image result lists downloads, originals and count. |
| Volcano.GenerateVolcanoImage | backend/app/tools/volcano_image_generation.py:318-425 | Without a key nothing is sent and the error reply comes back. Otherwise the parsed size and count are sent and the outcome follows the answer. |
| Volcano.EditOutcome | backend/app/tools/volcano_image_generation.py:488-530 | Specified by `EditResult`. |
| Volcano.EditVolcanoImage | backend/app/tools/volcano_image_generation.py:435-530 | Specified by `EditRequest` and `EditResult`. |
| Volcano.EditResult | backend/app/tools/volcano_image_generation.py:509-520 | Only the first URL is downloaded. The download is `image_url` and `local_path`, and the caller's input is `source_image`. |
| Volcano.EditRequest | backend/app/tools/volcano_image_generation.py:435-530 | A request is sent exactly with a key and a prepared local image, carrying that image and the parsed size. A failed preparation is the answer. |
| ImageFiles.KeepAllowed | backend/app/tools/volcano_image_generation.py:225 | The result keeps only alphanumerics, space, '-' and '_', and never grows. Specified in full by `KeepAllowedAppend`, `KeepAllowedAll` and `KeepAllowedMembers`. |
| ImageFiles.KeepAllowedAppend | backend/app/tools/volcano_image_generation.py:225 | The filter of a concatenation is the concatenation of the filters. |
| ImageFiles.KeepAllowedAll | backend/app/tools/volcano_image_generation.py:225 | A string of allowed characters is kept whole. |
| ImageFiles.KeepAllowedMembers | backend/app/tools/volcano_image_generation.py:225 | A character is in the result exactly when it is in the input and allowed. |
| ImageFiles.Take | backend/app/tools/volcano_image_generation.py:225 | `s[:n]` is a prefix of `s`: all of a short `s`, and exactly n characters otherwise. |
| ImageFiles.Fragment | backend/app/tools/volcano_image_generation.py:225-226 | Specified by `FragmentChars`, `FragmentPlain`, `FragmentOfAllowed` and `FragmentIgnoresTail`. |
| ImageFiles.FragmentOfAllowed | backend/app/tools/volcano_image_generation.py:225-226 | A prompt of at most 30 allowed characters comes through whole, each space turned into '_'. |
| ImageFiles.FragmentIgnoresTail | backend/app/tools/volcano_image_generation.py:225 | Characters after the 30th do not change the fragment. |
| ImageFiles.FragmentChars | backend/app/tools/volcano_image_generation.py:225-226 | The fragment has at most 30 characters, each alphanumeric, '-' or '_'. |
| ImageFiles.FragmentPlain | backend/app/tools/volcano_image_generation.py:225-226 | The fragment has no dot and no slash. |
| ImageFiles.PathExtensionShape | backend/app/tools/volcano_image_generation.py:217-219 | The extension is the path's own, or ".png" when it has none. The dot check never changes it. |
| ImageFiles.FirstNameSplits | backend/app/tools/volcano_image_generation.py:227 | The name is stem + extension, and `splitext` recovers both. |
| ImageFiles.FinalName | backend/app/tools/volcano_image_generation.py:273-283 | Specified by `StoredFileNameShape`. |
| ImageFiles.StoredFileNameShape | backend/app/tools/volcano_image_generation.py:227-286 | The stored name is the stem plus ".jpg" (opaque), ".png" (transparent) or the URL's extension (undecoded). It has no slash. |
| ImageFiles.SavedPath | backend/app/tools/volcano_image_generation.py:196-308 | Specified by `SavedPathFallback` and `SavedPathOfParsed`. |
| ImageFiles.SavedPathFallback | backend/app/tools/volcano_image_generation.py:293-308 | A file is stored exactly when the bytes arrived, the URL parsed and the write succeeded. The result is then under "/storage/images/". Otherwise it is the URL. |
| ImageFiles.SavedPathOfParsed | backend/app/tools/image_generation.py:69-165 | After a fetch and a parse, the result is "/storage/images/" + the final name when written, else the URL. |
| ImageFiles.ExtensionOf | backend/app/tools/image_generation.py:72-74 | The method yields `PathExtension`. |
| ImageFiles.Rename | backend/app/tools/image_generation.py:117-143 | The method yields the final name by transparency. |
| ImageFiles.DownloadAndSave | backend/app/tools/image_generation.py:51-165 | The step-by-step download yields `SavedPath`. |
| ImageFiles.ResponseBody | backend/app/tools/image_generation.py:204-209 | The body is decoded exactly for status 200 with a JSON body. Another status gives the error reply with status and text. |
| SiliconFlow.FirstImageUrl | backend/app/tools/image_generation.py:214-216 | A found URL is truthy. |
| SiliconFlow.FirstImageOnly | backend/app/tools/image_generation.py:214-215 | Only `images[0]` counts. |
| SiliconFlow.NoImages | backend/app/tools/image_generation.py:214 | A missing or empty list gives no URL. |
| SiliconFlow.SameFirstUrl | backend/app/tools/image_generation.py:214-216 | On an "images" list, this provider takes the first URL the Volcano extraction would. |
| SiliconFlow.UrlsOfObjects | backend/app/tools/volcano_image_generation.py:380 | A list of objects never makes the extraction raise. |
| SiliconFlow.UrlsOfHead | backend/app/tools/volcano_image_generation.py:380 | A truthy first URL is extracted first. |
| SiliconFlow.GenerateImage | backend/app/tools/image_generation.py:171-241 | Specified by `GenerateShape`. |
| SiliconFlow.GenerateOutcome | backend/app/tools/image_generation.py:202-241 | Specified by `GenerateOutcomeShape` and `FoundFields`. |
| SiliconFlow.GenerateShape | backend/app/tools/image_generation.py:171-241 | Without a key nothing is sent. Otherwise the prompt goes out at 1024x1024, and a result names the download of the first URL as `image_url`, `local_path` and in the message. |
| SiliconFlow.GenerateOutcomeShape | backend/app/tools/image_generation.py:204-235 | A result's `image_url` and `local_path` are the download of `images[0].url`. |
| SiliconFlow.FoundFields | backend/app/tools/image_generation.py:223-229 | The result object holds the download twice and the original URL. |
| SiliconFlow.ActualImageUrl | backend/app/tools/image_generation.py:271-277 | A non-local URL is sent as given. A "/storage/" path is prefixed by a base URL. |
| SiliconFlow.DefaultBaseIsLocal | backend/app/tools/image_generation.py:276-277 | With the default base, the rewritten URL is one the Volcano tool reads back locally. |
| SiliconFlow.EditImage | backend/app/tools/image_generation.py:248-335 | Specified by `EditShape`. |
| SiliconFlow.EditOutcome | backend/app/tools/image_generation.py:296-335 | Specified by `EditShape`. |
| SiliconFlow.EditShape | backend/app/tools/image_generation.py:248-335 | Without a key nothing is sent. A "/storage/" image gets `BASE_URL` (default localhost:8000); other images are sent unchanged. The result keeps the caller's input as `source_image`. |
| ChatRoutes.ChatMessages | backend/app/routers/chat.py:102-107 | The history is the request's messages (or []) followed by exactly one user entry. |
| ChatRoutes.UploadExtension | backend/app/routers/chat.py:74-77 | The extension starts with a dot and has no other dot and no slash. |
| ChatRoutes.UploadExtensionOf | backend/app/routers/chat.py:74-77 | The extension is the file name's own, or ".jpg". |
| ChatRoutes.UploadExtensionDefault | backend/app/routers/chat.py:74-77 | A missing name or a name without a dot is stored as ".jpg". |
| ChatRoutes.UploadNameSplits | backend/app/routers/chat.py:79 | The name is `upload_<ts>_<id>` + extension, and `splitext` recovers both. |
| ChatRoutes.UploadAnswer | backend/app/routers/chat.py:88-89 | The answer's `url` is "/storage/images/" + `filename`, and `filename` is that name. |
| ChatRoutes.UploadImage | backend/app/routers/chat.py:50-93 | As written. Specified by `RejectionBecomes500` and `UploadStatuses`. |
| ChatRoutes.UploadImageIntended | backend/app/routers/chat.py:50-93 | As intended. Specified by `UploadStatuses`. |
| ChatRoutes.RejectionBecomes500 | backend/app/routers/chat.py:59-67 | As written, a text upload is answered with status 500. When the images directory cannot be created, its error is reported first. |
| ChatRoutes.UploadStatuses | backend/app/routers/chat.py:59-67 | As intended, once the images directory exists, exactly non-images get 400. Failures of the directory and of the write get 500. The intended route agrees with the written one on images and on a failed directory. |
| ChatRoutes.UploadLocalFile | backend/app/routers/chat.py:88 | An upload URL is read back by the Volcano edit tool from "storage/images/". |
| ChatRoutes.UploadFormat | backend/app/routers/chat.py:79 | An upload is sent in the format of its extension. |
| ChatRoutes.DeleteCanvasRoute | backend/app/routers/chat.py:43-47 | The route answers `{"success": true}` exactly when the store's delete does not raise, whether or not the id existed, and 500 otherwise. The file becomes the filtered list when the delete succeeds and the disk takes the write. |
| Common.ParseIntShow | backend/app/tools/volcano_image_generation.py:87-89 | `int(str(n)) == n`. |
| Common.Split | backend/app/tools/volcano_image_generation.py:84 | The pieces are non-empty in number and free of the separator. |
| Common.SplitTwo | backend/app/tools/volcano_image_generation.py:84-85 | Splitting `a + sep + b` gives exactly `[a, b]`. |
| Common.StripPadded | backend/app/tools/volcano_image_generation.py:87-88 | `strip()` removes exactly the surrounding whitespace. |
| PyPath.SplitExt | backend/app/tools/volcano_image_generation.py:217 | The parts concatenate to the path. A non-empty extension starts with a dot and has no other dot and no slash. |
| PyPath.SplitExtOfStem | backend/app/tools/volcano_image_generation.py:277-282 | A plain stem and extension split back apart. |
| PyPath.SuffixOfFile | backend/app/tools/volcano_image_generation.py:127 | `dir/stem.ext` has suffix `.ext`. |
| PyPath.UrlParse | backend/app/tools/volcano_image_generation.py:153 | Specified by `UrlParseOfPlain`. |
| PyPath.Hostname | backend/app/tools/volcano_image_generation.py:154 | A found hostname is non-empty. Specified further by `HostnameOfPlain`. |
| PyPath.Suffix | backend/app/tools/volcano_image_generation.py:127 | A suffix is empty, or a dot followed by at least one character with no other dot and no slash. Specified further by `SuffixOfFile`. |
| PyPath.UrlParseOfPlain | backend/app/tools/volcano_image_generation.py:153 | A plain URL parses into its lower-cased scheme, netloc and path. |
| PyPath.HostnameOfPlain | backend/app/tools/volcano_image_generation.py:154 | The hostname of `host[:port]` is the lower-cased host. |

## Left out

- `ImageFiles.IsAlnum` approximates `str.isalnum()`. It covers ASCII, Latin-1, basic Greek and Cyrillic, kana, CJK ideographs, Hangul and full-width forms, not the whole Unicode database.
- `Common.Lower` and `Common.Upper` map ASCII letters only. Python's full Unicode case mapping is not modelled.
- `Common.ParseInt` does not accept underscores between digits or Unicode digits. `int()` would.
- `PyPath.Suffix` and `PyPath.UrlParse` follow current CPython on the inputs the core passes. Bracketed IPv6 hosts, the NFKC netloc check and port validation are not modelled. A URL `urlparse` rejects is the `InvalidUrl` failure.
- Pillow is reduced to what it decides: whether the bytes decoded, and the lowest alpha value. Colour conversion, ICC stripping and encoder options are left out. A save that fails after the rename needs no state of its own: the raw bytes then go to the renamed file, which is the name `FinalName` gives, and `Io.written` says whether that write succeeded. A failure of `convert("RGB")`, which comes before an opaque image is renamed, is represented by `Undecoded`, because the name then keeps its extension.
- `requests` is reduced to its outcome: a failure, or a status, a body text and the body's JSON.
- `json.dumps`, base64 encoding, `uuid4`, `datetime.now` and environment variables are parameters.
- `Common.Display` renders scalars only. The `str()` of a list or dict inside an error text is not rendered.
- `ChatRoutes.UploadImage` assumes Starlette's `str(HTTPException)` is "400: <detail>".
- Fixed request fields are not part of `Request`: model names, `response_format`, `stream` and `watermark`.
- File-path normalisation by `pathlib` (".." components, symlinks) is left out. Files are keyed by their relative path.
- Async generators and logging are left out. A generator is a method returning its events, and an escaping exception is a `failure` parameter applied after the delivered chunks.
- `convert_to_openai_messages` is part of the injected `dumps`. The `messages` event carries the LangChain messages.
- The agent's construction and `agent.astream` are left out (backend/app/services/agent_service.py is not part of this model), and so are backend/app/main.py and backend/scripts/normalize_storage_images.py.
- `get_canvases` and `save_canvas` routes in chat.py are one-line forwards to the store and have no rows of their own. As for `ChatRoutes.DeleteCanvasRoute`, an exception from the store is answered 500.
- `SiliconFlow.FirstImageUrl`: a non-object first entry or a non-list "images" is a raised exception, not modelled further.
- Python dict key order in tool arguments and result objects is not modelled; they are maps.
- StreamProcessing.MessageStep: the `except` branch of `_handle_message_chunk` (backend/app/services/stream_processor.py:297-305) is not modelled. Within the model's types no statement of the handler raises: LangChain validates tool calls (string ids, dict args), and `dumps` is total. A failing `json.dumps` would yield the events before it, then the error event "处理消息chunk时出错: <e>".
- StreamProcessing.AcceptedContent follows LangChain's declared message content type: a string, or a list of strings and dicts. The text of the validation error is the parameter `rejection`.
- StreamProcessing.StreamProcessor.constructor requires that `int()` accepts the environment value. Otherwise Python's constructor raises ValueError and no processor exists.
- History.HistoryService: one `writable` flag decides every write of a call, so the backup copy and the reset succeed or fail together. A failing `os.makedirs` in the constructor is left out.
- History.UpsertIdempotent and History.SaveIdempotent require a canvas object. For any other body the second save raises (see Findings).
- History ids compare as JSON values. Python's `True == 1` is not modelled, and numbers are integers here.
- EventStream.Parse reads only `data` fields and comments. The `event`, `id` and `retry` fields and a leading byte-order mark are left out, because the backend never writes them.

## Findings

| source | as written | input that shows it | evidently intended | confidence | as-written member | corrected member |
|---|---|---|---|---|---|---|
| backend/app/routers/chat.py:65-67 | The `HTTPException(400)` for a non-image upload is raised inside the `try` whose blanket `except Exception` turns it into `HTTPException(500, "上传失败: 400: 只支持图片文件")`. | An upload with content type "text/plain" and name "notes.txt", while the images directory can be created. | The client receives 400 with detail "只支持图片文件". | not executed | ChatRoutes.RejectionBecomes500 | ChatRoutes.UploadStatuses |
| backend/app/services/history_service.py:96-99 | `save_canvas` stores any JSON body the route passes on (chat.py:39-40). On an empty store a non-object is inserted and written. From then on `c.get('id')` raises in every save (line 90) and every delete (line 104). | POST /canvases with body `5` on an empty store, then any POST /canvases or DELETE /canvases/{id}. | A body that is not an object is refused, and the store keeps holding a list of canvas objects. | not executed | History.NonObjectPoisons | History.IntendedKeepsObjects |

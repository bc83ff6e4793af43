# AI-NoteTaker PDF ingestion, modelled in Dafny

AI-NoteTaker is a Next.js note-taking application. A user uploads a PDF.
The upload endpoint checks the request, creates a note in status
`processing` and sends a `pdf/process.requested` event. A background job
(`processPdf`) then does the following:

- checks the user's AI spend for the day;
- extracts and cleans the text, and saves it with status `embedding`;
- cuts the text into overlapping 500-word windows;
- embeds the windows in batches of 10 and stores each batch as chunk records;
- records the token usage and its cost;
- marks the note `completed`, or `failed` on error.

A second job (`summarizeNote`) checks the owner, generates a summary and
records its usage. The dashboard endpoint lists a user's notes newest
first, and a middleware redirects between the home page and the dashboard.

This project models that core and proves properties of it:

| file | module | models |
|---|---|---|
| `wrappers.dfy` | `Wrappers` | `Option` and `Result` |
| `jsstring.dfy` | `JsString` | the JavaScript string built-ins the code uses: `\s` and `trim()`, `replace(/\s+/g, " ")`, `split(" ")` and `join(" ")`, `includes`, and `replace` with a string pattern |
| `pricing.dfy` | `AiPricing` | the model price table |
| `records.dfy` | `Records` | the `Note`, `AiUsage` and `NoteChunk` records: their enums and stored names, defaults and field rules; also the job event |
| `cost.dfy` | `AiCost` | `calculateCost`, and `checkDailyLimit` as a filter-and-sum over usage records |
| `chunker.dfy` | `Chunker` | `chunkText` as an imperative loop, proved against a recursive window function |
| `store.dfy` | `Store` | a class for the database: notes by id, chunk and usage collections, the event queue; `create`/`insertMany` enforce the field rules and `findByIdAndUpdate` does not |
| `ingestion.dfy` | `Ingestion` | `processPdf` (including the batch loop) and `summarizeNote`, as methods on the store |
| `upload.dfy` | `Upload` | the upload endpoint: the ordered checks, note creation and the event |
| `dashboard.dfy` | `Dashboard` | the dashboard `GET`: owner filter, newest-first order, error-to-status mapping |
| `proxy.dfy` | `Proxy` | the middleware's redirect rule |

The PDF reader, the embedding API and the text generator are oracles. Each
is a function from what is sent to it to a reply or a failure, so one
run's answers are fixed. The database connection, the auth provider's
answer, local midnight and the current time are parameters.

## Where the model follows the code

In these places the code behaves differently from what its names and
comments suggest. The model follows the code.

- **Chunker separators.** `chunkText` splits on the single space only. Tabs
  and newlines do not separate words, and two spaces produce an empty word
  (`JsString.SplitCount`, `JsString.SplitWithoutSpace`).
- **Chunker step.** Nothing guards `overlap >= chunkSize`; the loop then
  never ends. `Chunker.ChunkText` requires `overlap < chunkSize`.
- **Short texts.** A text of at most `chunkSize` words is one chunk only when
  it has at most `chunkSize - overlap` words (`Chunker.ShortTextIsOneChunk`).
  With 450 words and the defaults there are two chunks. The second holds
  words 400-449, which the first already contains
  (`Chunker.FourHundredFiftyWords`).
- **`chunkIndex`.** The job writes `chunkIndex` on every chunk record, but the
  chunk schema does not declare it. `Records.ChunkRecord` keeps the field as
  the job supplies it.
- **Spend gate in `processPdf`.** The check runs before any step and outside
  every `try`. Over the limit, the run throws and the note keeps its status
  (`processing`); it is not marked `failed`.
- **Unreadable replies in `summarizeNote`.** The usage record is written
  before `response.text()` is read. A reply whose text cannot be read is
  therefore charged and recorded, and then the summary is marked `failed`.
- **Failures in `summarizeNote`.** Every failure marks the note's summary
  `failed`. That includes a request by a user who does not own the note, so
  another owner's note is marked `failed` (see the failure clause of
  `Ingestion.SummarizeNote`).

## Model

| member | source | states |
|---|---|---|
| JsString.CleanText | src/lib/inngest/function.js:147 | the cleaned text has no leading or trailing white space, its only white space is single plain spaces, and it keeps every other character in order |
| JsString.CleanTextIsJoinedWords | src/lib/inngest/function.js:147 | the cleaned text is exactly the text's words (maximal runs without white space) joined with single spaces |
| JsString.CollapseIsSpacedWords | src/lib/inngest/function.js:147 | collapsing gives the words joined with single spaces, plus one leading space exactly when the text starts with white space and one trailing space exactly when it ends with white space; white space alone becomes " " and empty text stays empty |
| JsString.SplitCleanText | src/lib/inngest/function.js:147 | splitting the cleaned text at its spaces gives back exactly the text's words; a text without words cleans to "" |
| JsString.WordsAreWords | src/lib/inngest/function.js:147 | every word is non-empty and holds no white space |
| JsString.WordsOfJoin | src/lib/inngest/function.js:146 | the words of pages joined with " " are the pages' words, in page order |
| JsString.TrimFacts | src/lib/inngest/function.js:147 | `trim()` keeps one contiguous stretch of the text that neither starts nor ends with white space, and loses no other character |
| JsString.TrimBlankIffNoText | src/backend/models/notes.js:5-9 | trimming leaves nothing exactly when the text is only white space |
| JsString.CollapseSpaces | src/lib/inngest/function.js:147 | every white-space run becomes one plain space: no other white space remains, no two spaces are adjacent, it is empty only for empty input, and it starts with a space exactly when the input starts with white space |
| JsString.CollapseKeepsText | src/lib/inngest/function.js:147 | collapsing keeps every non-white-space character, in order |
| JsString.TrimStart | src/lib/inngest/function.js:147 | `trimStart` removes a prefix made only of white space, and the result does not start with white space |
| JsString.TrimEnd | src/lib/inngest/function.js:147 | `trimEnd` removes a suffix made only of white space, and the result does not end with white space |
| JsString.Split | src/lib/chunkTest.js:2 | `split(" ")` gives at least one piece, and no piece contains a space |
| JsString.JoinSplit | src/lib/chunkTest.js:2-6 | joining the pieces of a split with " " gives back the text |
| JsString.SplitJoin | src/lib/chunkTest.js:2-6 | splitting the join of space-free pieces gives back the pieces |
| JsString.SplitCount | src/lib/chunkTest.js:2 | there is one more piece than there are plain spaces |
| JsString.SplitWithoutSpace | src/lib/chunkTest.js:2 | text without a plain space (tabs and newlines included) is one piece |
| JsString.JoinSpaceCount | src/lib/chunkTest.js:6 | joining `n` pieces without spaces puts exactly `n - 1` spaces in the result |
| JsString.JoinHeadNonEmpty | src/lib/chunkTest.js:6 | a join whose first piece is non-empty is non-empty |
| JsString.SplitCleanedWordsNonEmpty | src/lib/chunkTest.js:2 | cleaned non-empty text splits into non-empty words |
| JsString.IndexOfFrom | src/app/api/dashboard/route.js:29-31 | the result is the first position at or after `from` where the pattern occurs, and `None` means it occurs nowhere from there |
| JsString.Includes | src/app/api/dashboard/route.js:29-31 | `includes` is true exactly when the pattern occurs at some position |
| JsString.ReplaceFirst | src/app/api/ai/notes/uploadpdf/route.js:70 | text without the pattern is unchanged; otherwise only the first occurrence is replaced |
| AiPricing.PriceOf | src/lib/aiPricing.js:1-22 | a price exists exactly for the four listed models; the embedding model costs 0.00002 in and 0 out, both Gemini models 0.00035 in and 0.00105 out, gpt-4o-mini 0.00015 in and 0.0006 out; no price is negative |
| AiPricing.PriceTableShape | src/lib/aiPricing.js:1-22 | the table has four entries, the two Gemini entries are equal, and the embedding model's output price is 0 |
| Records.ParseSummaryStatus | src/backend/models/notes.js:23-27 | the enum check accepts exactly the four stored names, and parsing a name gives back its status |
| Records.ParseProcessingStatus | src/backend/models/notes.js:28-32 | the enum check accepts exactly the five stored names, and parsing a name gives back its status |
| Records.ParseSource | src/backend/models/notes.js:33-37 | the enum check accepts exactly "manual" and "pdf" |
| Records.ParseFeature | src/backend/models/AiUsage.js:16-26 | the enum check accepts exactly the five feature names |
| Records.ParseAiMode | src/backend/models/AiUsage.js:28-32 | the enum check accepts exactly "direct", "rag" and "agent" |
| Records.ParseOperation | src/backend/models/AiUsage.js:34-37 | the enum check accepts exactly the four operation names |
| Records.NoteFromInput | src/backend/models/notes.js:5-55 | a created note has its title trimmed; every omitted field takes the schema default (content "", summary status pending, processing status completed, source manual, metadata null) |
| Records.ValidNoteIsTrimmed | src/backend/models/notes.js:5-10 | a stored title is its own trim: the schema's `trim` has nothing left to remove |
| Records.AcceptsNoteMeans | src/backend/models/notes.js:5-15 | a create passes exactly when the title holds a character other than white space, the trimmed title has at most 2000 characters, and the owner is given |
| Records.CreatedNoteValid | src/backend/models/notes.js:5-15 | every note a create accepts satisfies the note's field rules |
| AiCost.CalculateCost | src/lib/calcAiCost.js:5-23 | fails with "pricing not defined" exactly for an unpriced model; otherwise input cost = prompt tokens / 1000 × input price, output cost = completion tokens / 1000 × output price (an omitted count is 0), and total = input cost + output cost |
| AiCost.ZeroTokensCostNothing | src/lib/calcAiCost.js:5-17 | omitted or zero token counts cost nothing on every priced model |
| AiCost.EmbeddingCost | src/lib/calcAiCost.js:16-22 | embedding tokens cost tokens × 0.00002 / 1000 |
| AiCost.CostNonNegativeMonotone | src/lib/calcAiCost.js:16-22 | with non-negative token counts the cost is non-negative and never decreases as either count grows |
| AiCost.TodayOf | src/lib/calcAiCost.js:33 | the filter keeps exactly the user's records created at or after midnight, each as many times as it is stored |
| AiCost.DailySpendIsFilterThenSum | src/lib/calcAiCost.js:32-37 | the daily spend is the sum of the costs of exactly the user's records since midnight, and 0 for none |
| AiCost.DailySpendAppend | src/lib/calcAiCost.js:32-37 | appending a record raises the spend by its cost exactly when it is the user's and from today |
| AiCost.DailySpendWithoutTodaysRecords | src/lib/calcAiCost.js:33-37 | records of other users or earlier days give a spend of 0 |
| AiCost.DailySpendNonNegative | src/lib/calcAiCost.js:34-37 | with no negative costs the spend is never negative |
| AiCost.CheckDailyLimit | src/lib/calcAiCost.js:26-43 | the result is the sum of the costs of the records the `$match` keeps (0 for none) |
| AiCost.CheckDailyLimitIgnoresLimit | src/lib/calcAiCost.js:26-43 | the limit argument does not change the result: it only returns the spend |
| Chunker.ChunkText | src/lib/chunkTest.js:1-10 | the loop yields exactly the windows of the split words, each starting `chunkSize - overlap` words after the last; there is at least one |
| Chunker.WindowsCount | src/lib/chunkTest.js:5 | with `w` words and step `s`, the number of windows `c` satisfies `(c-1)·s < w <= c·s` |
| Chunker.WindowsCountIsCeiling | src/lib/chunkTest.js:2-5 | the number of chunks is `ceil(w / s)` |
| Chunker.WindowAt | src/lib/chunkTest.js:5-6 | chunk `k` is words `k·s` to `min(k·s + chunkSize, w)` joined with " " |
| Chunker.ChunkIsItsWords | src/lib/chunkTest.js:5-6 | each chunk has between 1 and `chunkSize` words, and splitting it gives exactly those words back |
| Chunker.EveryWordCovered | src/lib/chunkTest.js:5-6 | when `s <= chunkSize`, every word lies in some chunk |
| Chunker.FullChunkOverlap | src/lib/chunkTest.js:5-6 | when chunk `k` is full, its last `overlap` words are the first `overlap` words of chunk `k + 1` |
| Chunker.FirstChunkStartsAtZero | src/lib/chunkTest.js:5-6 | the first chunk starts at word 0 |
| Chunker.ShortTextIsOneChunk | src/lib/chunkTest.js:2-6 | a text of at most `s` words (and at most `chunkSize`) is a single chunk equal to the text |
| Chunker.CleanedTextChunksNonEmpty | src/lib/chunkTest.js:2-6 | cleaned non-empty text gives only non-empty chunks |
| Chunker.SixHundredWords | src/lib/chunkTest.js:1-6 | 600 words with 500/100 give words 0-499 and 400-599 |
| Chunker.FourHundredFiftyWords | src/lib/chunkTest.js:1-6 | 450 words with 500/100 give two chunks, the second inside the first |
| Store.ApplyUpdate | src/lib/inngest/function.js:178-182 | an update sets exactly the fields it names and keeps all others |
| Store.UpdateById | src/lib/inngest/function.js:164-166 | only the note with that id changes, and an unknown id changes nothing |
| Store.UpdateKeepsValid | src/backend/models/notes.js:5-15 | an update never breaks a note's field rules |
| Store.Store.Valid | src/app/api/ai/notes/uploadpdf/route.js:69-81 | every stored note, chunk and usage record satisfies its schema's rules, and the id the next create will use is not taken |
| Store.Store.CreateNote | src/app/api/ai/notes/uploadpdf/route.js:69-81 | the note is stored under a fresh id exactly when the field rules accept the input; otherwise nothing is written |
| Store.Store.FindByIdAndUpdate | src/lib/inngest/function.js:178-182 | the notes become the update by id; nothing else changes |
| Store.Store.InsertMany | src/backend/models/NoteChunk.js:11-19 | the whole batch is appended exactly when every record passes the chunk schema, whose required owner and text must be non-empty strings; otherwise nothing is appended |
| Store.Store.CreateUsage | src/backend/models/AiUsage.js:5-9 | the record is appended exactly when it passes the usage schema, whose required owner must be a non-empty string (feature and mode always hold a listed value); otherwise nothing is appended |
| Store.Store.Send | src/app/api/ai/notes/uploadpdf/route.js:83-92 | the event is queued once; nothing else changes |
| Ingestion.FullTextWords | src/lib/inngest/function.js:146 | joining the pages with " " neither merges nor splits words: the full text's words are the pages' words in page order |
| Ingestion.SavedTextIsTheWords | src/lib/inngest/function.js:146-147 | splitting the saved text at its spaces gives back the reader's words in order, none lost and none added |
| Ingestion.ExtractedText | src/lib/inngest/function.js:144-159 | a reader failure or a cleaned text shorter than 50 characters fails; otherwise the result is the cleaned text (pages joined with " ") and the page count |
| Ingestion.Batching.FirstBad | src/lib/inngest/function.js:217-266 | the first chunk whose embedding fails or whose record breaks the chunk rules; every chunk before it is fine |
| Ingestion.EmbedTokens | src/lib/inngest/function.js:238-241 | the tokens of a reply are its `total_tokens` when present, else its `prompt_tokens` when present, else 0 |
| Ingestion.Batching.Records | src/lib/inngest/function.js:227-252 | the records of a range of chunks, in index order |
| Ingestion.RecordsInOrder | src/lib/inngest/function.js:227-252 | the `k`-th record written has `chunkIndex = k` and the `k`-th chunk's text, and carries the event's note and owner; no other record has index `k` |
| Ingestion.RecordAt | src/lib/inngest/function.js:227-252 | the `k`-th record of a range of chunks is the record of the range's `k`-th chunk |
| Ingestion.EmbedBatch | src/lib/inngest/function.js:227-263 | a batch succeeds exactly when every embedding in it succeeds, giving its records and their tokens; otherwise it fails with a failing index |
| Ingestion.StoreBatch | src/lib/inngest/function.js:217-266 | a batch that passes moves the run past it with its records stored and its tokens; a failing batch holds the first chunk that stops the run, stores nothing, and throws a failed embedding from that batch when it has one, and the insert's rejection only when all of its embeddings succeeded |
| Ingestion.EmbedChunks | src/lib/inngest/function.js:211-275 | success exactly when no chunk stops the run. On success every record is appended in order, the total is the sum of the reported tokens, and there are `ceil(n/10)` batches. On failure the batches before the failing one stay stored, and the error is a failed embedding of the failing batch when it has one, otherwise the insert's rejection |
| Ingestion.PdfUsage | src/lib/inngest/function.js:276-293 | the usage record has feature pdf-upload, mode rag, operation embedding, prompt = total tokens, completion 0, and cost tokens × 0.00002 / 1000 |
| Ingestion.PdfChunksNonEmpty | src/lib/inngest/function.js:191-198 | the saved text always gives at least one chunk and no empty chunk |
| Ingestion.OnlyEmbeddingFailuresStopAnOwnedRun | src/lib/inngest/function.js:246-266 | with an owner, a run stops exactly at a failed embedding, because no chunk record is ever rejected |
| Ingestion.ProcessPdf | src/lib/inngest/function.js:126-333 | over the daily limit nothing changes; an extraction failure marks the note failed; a failing batch marks it failed, keeps earlier batches and throws a failed embedding of that batch when it has one, otherwise the insert's rejection; a complete run stores all chunks, adds one usage record, marks the note completed with summary pending, and returns the chunk count, page count and text length; under the limit an existing note ends `completed` exactly when the run succeeds and `failed` otherwise |
| Ingestion.EmbedStage | src/lib/inngest/function.js:191-324 | for the saved text: a run that stops throws a failed embedding of the failing batch when it has one and otherwise the insert's rejection, marks the note failed and keeps the earlier batches with no usage record; a complete run stores every chunk record in order, adds one usage record with the summed tokens, marks the note completed with summary pending, and returns the chunk count |
| Ingestion.SaveTextSets | src/lib/inngest/function.js:178-182 | the save step sets the content, status `embedding` and the page count, and keeps every other field |
| Ingestion.MarkFailedSets | src/lib/inngest/function.js:164-166 | marking a run failed sets processing status `failed` and nothing else |
| Ingestion.MarkCompletedSets | src/lib/inngest/function.js:314-317 | marking a run completed sets processing status `completed` and summary status `pending`, and nothing else |
| Ingestion.StoreSummarySets | src/lib/inngest/function.js:95-99 | storing a summary sets the summary and status `completed`, and nothing else |
| Ingestion.MarkSummaryFailedSets | src/lib/inngest/function.js:106-109 | marking a summary failed sets summary status `failed` and nothing else |
| Ingestion.SummaryUsage | src/lib/inngest/function.js:65-88 | missing token counts are 0, total = prompt + completion, and the cost is priced for gemini-flash-latest |
| Ingestion.SummarizeNote | src/lib/inngest/function.js:25-113 | over the limit, for a missing note, for another owner's note or when generation fails, the summary is marked failed and no usage is recorded; a reply whose text cannot be read is recorded as usage and then the summary is marked failed; otherwise one usage record is added and the summary is stored as completed |
| Upload.Gate | src/app/api/ai/notes/uploadpdf/route.js:23-60 | checks run in order: 401 without a user, 400 without a file, 400 for a non-PDF type, 400 above 10 MiB, 429 when today's spend is at least 1; the upload passes exactly when none applies |
| Upload.SizeLimitInclusive | src/app/api/ai/notes/uploadpdf/route.js:45-51 | exactly 10 MiB passes and one byte more is refused |
| Upload.UploadTitle | src/app/api/ai/notes/uploadpdf/route.js:70 | a name without ".pdf" is kept; otherwise the title is four characters shorter |
| Upload.DoubleExtensionKeepsOne | src/app/api/ai/notes/uploadpdf/route.js:70 | "a.pdf.pdf" becomes "a.pdf" |
| Upload.UploadedNoteShape | src/app/api/ai/notes/uploadpdf/route.js:69-81 | the new note has empty content, source pdf, status processing, summary pending, the file's name and size, and no page count |
| Upload.BareExtensionIsRefused | src/app/api/ai/notes/uploadpdf/route.js:69-81 | a file named ".pdf" gives an empty title, which the note rules refuse |
| Upload.ServerError | src/app/api/ai/notes/uploadpdf/route.js:169-177 | status 500 with the error's message, or "Failed to process PDF" when the message is empty |
| Upload.UploadPdf | src/app/api/ai/notes/uploadpdf/route.js:19-179 | a refused upload writes nothing; an accepted one stores the note and queues exactly one event for it, answering 200 with status processing; failures after the checks answer 500 |
| Dashboard.OwnedBy | src/app/api/dashboard/route.js:19 | the query keeps every note of the user as often as it is stored, and no other note |
| Dashboard.SortNewestFirst | src/app/api/dashboard/route.js:19 | the result is ordered by createdAt descending and is a permutation of the input |
| Dashboard.ErrorResponse | src/app/api/dashboard/route.js:24-47 | 503 exactly when the message contains "MongoDB", "Atlas" or "whitelist"; otherwise 500 with the message |
| Dashboard.AtlasErrorIs503 | src/app/api/dashboard/route.js:28-42 | a message mentioning Atlas gives 503 |
| Dashboard.Get | src/app/api/dashboard/route.js:6-49 | a connection error is reported first; no user gives 401; success (200) happens exactly when connection, user and query are fine, and returns the user's notes newest first |
| Dashboard.OnlyOwnNotes | src/app/api/dashboard/route.js:19-23 | a successful reply has each of the caller's notes as often as it is stored, and no one else's |
| Dashboard.ConnectionBeforeAuth | src/app/api/dashboard/route.js:8-12 | a connection failure gives 500 or 503 even without a user |
| Proxy.Redirect | proxy.ts:5-18 | signed in at "/" goes to "/dashboard"; signed out elsewhere goes to "/"; the other two cases pass through; the target is never the current path |
| Proxy.NoRedirectLoop | proxy.ts:10-17 | for a fixed auth state, following a redirect reaches a page that is let through |

## Left out

- The latency measured for each AI call (`latencyMs`) is not modelled. It needs a clock; the usage records carry no latency field.
- The 200 ms pause between embedding batches is not modelled, because timing has no effect on the stored state.
- The job runner's retries (3 per job) and its step memoisation are not modelled. One run is modelled. A re-run would insert the same chunks again, and nothing in the code prevents that.
- `Promise.all` inside a batch is modelled as a sequential loop.
- Ingestion.EmbedChunks: when several embeddings in a batch fail, the model reports the lowest failing index. `Promise.all` rejects with whichever failure arrives first.
- AiCost.CalculateCost: a model name that is an inherited property of a JavaScript object (`"constructor"`, `"toString"`, `"__proto__"`) finds a non-number price and yields `NaN` instead of throwing; the model fails for every unlisted name. No caller passes such a name.
- Upload.UploadPdf: when the note's field rules reject the create, the reply is 500 with Mongoose's validation message; the model answers with the fixed message "Note validation failed".
- Chunker.ChunkText: requires `0 < chunkSize`. JavaScript accepts a size of 0 or less (empty or oddly sliced chunks), but the only caller passes the defaults 500 and 100.
- Costs are exact `real` arithmetic. Floating-point rounding is not modelled.
- Lengths are counted in characters, not UTF-16 code units. This affects the 2000-character title limit and the 50-character text minimum.
- Mongoose strict mode, which would drop the undeclared `chunkIndex` on write, is not modelled; the record keeps the index the job supplies.
- Mongoose casting is not modelled. Note ids are natural numbers, not ObjectIds. The required `embedding` array is not checked for emptiness.
- Local midnight and "now" are integer timestamp parameters; time zones and `setHours` are not modelled.
- The PDF bytes travel in the event directly. The base64 encoding and decoding are not modelled.
- `db.js` and its connection cache are not part of this model. A failed connection is a parameter of the upload and dashboard handlers. The jobs' own connection calls and database write errors are not modelled.
- Failures of `req.formData()` and a `file` field that is not a file are not modelled.
- `updatedAt`, which the summary job sets, is not modelled.
- The `details` field of the upload's 500 reply (`error.toString()`) is not modelled.
- Dashboard.Get: states the order by `createdAt` and the set of notes, but not the order among notes with equal `createdAt`, which the database leaves open.
- An error object without a message on the dashboard is not modelled; the message is always a string.
- The middleware's `config.matcher` path filter is not modelled. Redirect targets are paths; the absolute URL built from the request is not modelled.
- The commented-out synchronous pipeline in the upload endpoint is not modelled, because it is dead code.

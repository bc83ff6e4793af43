/**
  The two background jobs: `processPdf` (spend check, extract and clean the
  text, save it, chunk it, embed the chunks in batches of 10 and store them,
  record the usage, mark the note completed) and `summarizeNote`. The PDF
  reader, the embedding API and the text generator are oracles: functions
  from what is sent to them to a reply or a failure.
*/
module Ingestion {
  import opened Wrappers
  import opened JsString
  import opened Records
  import opened AiPricing
  import opened AiCost
  import opened Chunker
  import opened Store

  // ----------------------------------------------------- external replies

  /** The text the PDF reader returns: one string per page, or one string. */
  datatype PdfText = PageTexts(pages: seq<string>) | WholeText(text: string)

  datatype ExtractReply = Extracted(text: PdfText, totalPages: int) | ExtractFailed(message: string)

  /** An embedding reply with its usage counts (`total_tokens`, `prompt_tokens`), either of which may be missing. */
  datatype EmbedReply =
    | Embedded(vector: seq<real>, totalTokens: Option<int>, promptTokens: Option<int>)
    | EmbedFailed(message: string)

  /**
    A generation reply with its usage counts (`promptTokenCount`,
    `candidatesTokenCount`). `Unreadable` is a reply that arrives with its
    counts but whose `response.text()` throws (a blocked or empty candidate).
  */
  datatype GenReply =
    | Generated(text: string, promptTokenCount: Option<int>, candidatesTokenCount: Option<int>)
    | Unreadable(promptTokenCount: Option<int>, candidatesTokenCount: Option<int>, message: string)
    | GenFailed(message: string)

  /** Why a job run ends by throwing. */
  datatype JobError =
    | DailyLimitReached
    | ExtractionError(message: string)
    | TextTooShort
    | EmbeddingError(chunkIndex: nat, message: string)
    | ChunkInsertRejected
    | NoteNotFound
    | Unauthorized
    | GenerationError(message: string)

  /** What a successful `processPdf` run returns. */
  datatype PdfResult = PdfResult(noteId: NoteId, chunkCount: nat, totalPages: int, textLength: nat)

  const BatchSize := 10
  const MinTextLength: nat := 50

  // -------------------------------------------------------------- extract

  /** The reader's text as one string: pages joined with single spaces. */
  function FullText(t: PdfText): string {
    match t
    case PageTexts(pages) => Join(pages)
    case WholeText(s) => s
  }

  /** Joining the pages neither merges nor splits words: the full text's words are the pages' words in page order. */
  lemma FullTextWords(t: PdfText)
    ensures t.PageTexts? ==> Words(FullText(t)) == WordsOfAll(t.pages)
    ensures t.WholeText? ==> Words(FullText(t)) == Words(t.text)
  {
    if t.PageTexts? {
      WordsOfJoin(t.pages);
    }
  }

  /**
    The extract step: the reader's failure, or its text with white space
    collapsed and trimmed, which must hold at least 50 characters.
  */
  function ExtractedText(reply: ExtractReply): (r: Result<(string, int), JobError>)
    ensures reply.ExtractFailed? ==> r == Failure(ExtractionError(reply.message))
    ensures reply.Extracted? && |CleanText(FullText(reply.text))| < MinTextLength ==> r == Failure(TextTooShort)
    ensures r.Success? <==> reply.Extracted? && |CleanText(FullText(reply.text))| >= MinTextLength
    ensures r.Success? ==> r.value == (CleanText(FullText(reply.text)), reply.totalPages)
    ensures r.Success? ==> IsCleaned(r.value.0) && |r.value.0| >= MinTextLength
  {
    match reply
    case ExtractFailed(message) => Failure(ExtractionError(message))
    case Extracted(text, totalPages) =>
      var cleaned := CleanText(FullText(text));
      if |cleaned| < MinTextLength then Failure(TextTooShort) else Success((cleaned, totalPages))
  }

  /**
    The saved text loses no word of the reader's text and adds none:
    splitting it at its spaces gives back the pages' words in order.
  */
  lemma SavedTextIsTheWords(reply: ExtractReply)
    requires ExtractedText(reply).Success?
    ensures reply.text.PageTexts? ==> Split(ExtractedText(reply).value.0) == WordsOfAll(reply.text.pages)
    ensures reply.text.WholeText? ==> Split(ExtractedText(reply).value.0) == Words(reply.text.text)
  {
    var full := FullText(reply.text);
    SplitCleanText(full);
    FullTextWords(reply.text);
  }

  /** The chunks `chunkText` makes of the saved text with its default window of 500 and overlap of 100. */
  function PdfChunks(text: string): seq<string> {
    Windows(Split(text), 0, DefaultChunkSize, DefaultChunkSize - DefaultOverlap)
  }

  // --------------------------------------------------------------- embed

  /** `total_tokens ?? prompt_tokens ?? 0`: the first count the reply reports, in that order, else 0. */
  function EmbedTokens(reply: EmbedReply): (t: int)
    ensures reply.Embedded? && reply.totalTokens.Some? ==> t == reply.totalTokens.value
    ensures reply.Embedded? && reply.totalTokens.None? && reply.promptTokens.Some? ==> t == reply.promptTokens.value
    ensures reply.Embedded? && reply.totalTokens.None? && reply.promptTokens.None? ==> t == 0
  {
    match reply
    case EmbedFailed(_) => 0
    case Embedded(_, total, prompt) =>
      if total.Some? then total.value else prompt.GetOr(0)
  }

  function VectorOf(reply: EmbedReply): seq<real> {
    if reply.Embedded? then reply.vector else []
  }

  /** One run of the embedding stage: the note, its owner, the chunks and the embedding oracle. */
  datatype Batching = Batching(noteId: NoteId, userId: string, chunks: seq<string>, embed: string -> EmbedReply) {

    /** The record written for chunk `i`: the event's ids, the chunk's text, its vector, `chunkIndex = i`. */
    function Record(i: nat): ChunkRecord
      requires i < |chunks|
    {
      ChunkRecord(noteId, userId, chunks[i], VectorOf(embed(chunks[i])), i)
    }

    /** Chunk `i` stops the run: its embedding fails or its record breaks the chunk schema. */
    predicate Bad(i: nat)
      requires i < |chunks|
    {
      embed(chunks[i]).EmbedFailed? || !ValidChunk(Record(i))
    }

    /** The first chunk at or after `from` that stops the run, or the number of chunks. */
    function FirstBad(from: nat): (b: nat)
      requires from <= |chunks|
      ensures from <= b <= |chunks|
      ensures forall k :: from <= k < b ==> !Bad(k)
      ensures b < |chunks| ==> Bad(b)
      decreases |chunks| - from
    {
      if from == |chunks| then from
      else if Bad(from) then from
      else FirstBad(from + 1)
    }

    /** The records of chunks `lo` to `hi - 1`, in index order. */
    function Records(lo: nat, hi: nat): (rs: seq<ChunkRecord>)
      requires lo <= hi <= |chunks|
      ensures |rs| == hi - lo
      decreases hi - lo
    {
      if lo == hi then [] else Records(lo, hi - 1) + [Record(hi - 1)]
    }

    /** The first chunk of the batch of 10 that holds the first chunk stopping the run. */
    function FailingBatch(): nat {
      FirstBad(0) / BatchSize * BatchSize
    }

    /** Some embedding of the chunks `lo` to `hi - 1` fails. */
    predicate EmbeddingFailsIn(lo: nat, hi: nat)
      requires hi <= |chunks|
    {
      exists k :: lo <= k < hi && embed(chunks[k]).EmbedFailed?
    }

    /**
      The error a run stopped at `FirstBad(0)` throws. When an embedding of
      the failing batch fails, the batch's promise rejects before the insert
      is reached, so the error is one of those failed embeddings (which one
      depends on the order in which the requests settle); otherwise the
      insert's rejection is rethrown.
    */
    predicate StopsWith(e: JobError) {
      var lo := FailingBatch();
      var hi := Min(lo + BatchSize, |chunks|);
      if EmbeddingFailsIn(lo, hi) then
        && e.EmbeddingError?
        && lo <= e.chunkIndex < hi
        && embed(chunks[e.chunkIndex]) == EmbedFailed(e.message)
      else
        e == ChunkInsertRejected
    }

    /** The tokens reported for the first `n` chunks. */
    function Tokens(n: nat): int
      requires n <= |chunks|
    {
      if n == 0 then 0 else Tokens(n - 1) + EmbedTokens(embed(chunks[n - 1]))
    }
  }

  /** The embedding stage of the run for this event and saved text. */
  function PdfBatching(event: PdfProcessRequested, text: string, embed: string -> EmbedReply): Batching {
    Batching(event.noteId, event.userId, PdfChunks(text), embed)
  }

  /**
    The records written are the chunks in order, each exactly once: the
    `k`-th carries `chunkIndex = k`, the `k`-th chunk's text and the run's
    note and owner.
  */
  lemma RecordsInOrder(job: Batching, n: nat, k: nat)
    requires n <= |job.chunks| && k < n
    ensures job.Records(0, n)[k].chunkIndex == k
    ensures job.Records(0, n)[k].text == job.chunks[k]
    ensures job.Records(0, n)[k].noteId == job.noteId && job.Records(0, n)[k].userId == job.userId
    ensures forall m :: 0 <= m < n && m != k ==> job.Records(0, n)[m].chunkIndex != k
  {
    RecordAt(job, 0, n, k);
    forall m | 0 <= m < n && m != k
      ensures job.Records(0, n)[m].chunkIndex != k
    {
      RecordAt(job, 0, n, m);
    }
  }

  /** The `k`-th of the records of chunks `lo` to `hi - 1` is the record of chunk `lo + k`. */
  lemma {:induction false} RecordAt(job: Batching, lo: nat, hi: nat, k: nat)
    requires lo <= hi <= |job.chunks| && k < hi - lo
    ensures job.Records(lo, hi)[k] == job.Record(lo + k)
    decreases hi - lo
  {
    if k < hi - 1 - lo {
      RecordAt(job, lo, hi - 1, k);
    }
  }

  lemma FailingBatchStart(job: Batching, b: nat, j: nat)
    requires b * BatchSize <= j < b * BatchSize + BatchSize && j < |job.chunks|
    requires b * BatchSize <= job.FirstBad(0) && job.Bad(j)
    ensures b * BatchSize <= job.FirstBad(0) <= j
    ensures job.FirstBad(0) / BatchSize * BatchSize == b * BatchSize
    ensures j / BatchSize == job.FirstBad(0) / BatchSize
  {
  }

  /** After the loop, `b` batches of 10 cover `n` items exactly when `b = ceil(n / 10)`. */
  lemma BatchCount(b: nat, n: nat)
    requires n <= b * BatchSize < n + BatchSize
    ensures b == (n + BatchSize - 1) / BatchSize
  {
    if n > 0 {
      MulSucc(b - 1, BatchSize);
      CeilingUnique(b, n, BatchSize);
    }
  }

  /**
    One batch: the embeddings of chunks `lo` to `hi - 1` requested together.
    It fails with the lowest failing index when any embedding fails;
    otherwise it yields the batch's records in order and their tokens.
  */
  method EmbedBatch(job: Batching, lo: nat, hi: nat) returns (r: Result<seq<ChunkRecord>, JobError>, tokens: int)
    requires lo <= hi <= |job.chunks|
    ensures r.Success? <==> forall k :: lo <= k < hi ==> job.embed(job.chunks[k]).Embedded?
    ensures r.Success? ==> r.value == job.Records(lo, hi) && tokens == job.Tokens(hi) - job.Tokens(lo)
    ensures r.Failure? ==>
      && r.error.EmbeddingError?
      && lo <= r.error.chunkIndex < hi
      && job.embed(job.chunks[r.error.chunkIndex]) == EmbedFailed(r.error.message)
  {
    var batch: seq<ChunkRecord> := [];
    tokens := 0;
    var j := lo;
    while j < hi
      invariant lo <= j <= hi
      invariant batch == job.Records(lo, j)
      invariant forall k :: lo <= k < j ==> job.embed(job.chunks[k]).Embedded?
      invariant tokens == job.Tokens(j) - job.Tokens(lo)
    {
      var reply := job.embed(job.chunks[j]);
      if reply.EmbedFailed? {
        return Failure(EmbeddingError(j, reply.message)), tokens;
      }
      tokens := tokens + EmbedTokens(reply);
      batch := batch + [job.Record(j)];
      j := j + 1;
    }
    r := Success(batch);
  }

  /** A batch whose embeddings all succeeded and whose records all passed: the run goes past it. */
  lemma StoredBatch(job: Batching, lo: nat, hi: nat)
    requires lo <= hi <= |job.chunks| && lo <= job.FirstBad(0)
    requires forall k :: lo <= k < hi ==> job.embed(job.chunks[k]).Embedded?
    requires forall k :: 0 <= k < |job.Records(lo, hi)| ==> ValidChunk(job.Records(lo, hi)[k])
    ensures hi <= job.FirstBad(0)
  {
    forall k | lo <= k < hi
      ensures !job.Bad(k)
    {
      RecordAt(job, lo, hi, k - lo);
    }
  }

  lemma RecordsSplit(job: Batching, lo: nat, mid: nat, hi: nat)
    requires lo <= mid <= hi <= |job.chunks|
    ensures job.Records(lo, mid) + job.Records(mid, hi) == job.Records(lo, hi)
  {
  }

  /** A batch the chunk schema rejects holds the first chunk that stops the run. */
  lemma RejectedBatch(job: Batching, b: nat, hi: nat)
    requires b * BatchSize <= hi <= b * BatchSize + BatchSize && hi <= |job.chunks|
    requires b * BatchSize <= job.FirstBad(0)
    requires !forall k :: 0 <= k < |job.Records(b * BatchSize, hi)| ==> ValidChunk(job.Records(b * BatchSize, hi)[k])
    ensures job.FirstBad(0) < |job.chunks|
    ensures job.FirstBad(0) / BatchSize * BatchSize == b * BatchSize
  {
    var k :| 0 <= k < |job.Records(b * BatchSize, hi)| && !ValidChunk(job.Records(b * BatchSize, hi)[k]);
    RecordAt(job, b * BatchSize, hi, k);
    FailingBatchStart(job, b, b * BatchSize + k);
  }

  /**
    Batch `b`, starting at chunk `lo`, of a run that has reached it: its embeddings are requested
    and the records inserted together. When it passes, the run goes on past
    it with the batch's tokens; when it fails, the first chunk that stops
    the run lies in this batch and nothing of it is stored.
  */
  method StoreBatch(store: Store, job: Batching, lo: nat, ghost b: nat) returns (r: Result<int, JobError>)
    requires store.Valid()
    requires lo == b * BatchSize && lo < |job.chunks| && lo <= job.FirstBad(0)
    modifies store
    ensures store.Valid()
    ensures store.notes == old(store.notes) && store.usage == old(store.usage)
    ensures store.events == old(store.events) && store.nextId == old(store.nextId)
    ensures r.Success? ==>
      var end := Min(lo + BatchSize, |job.chunks|);
      && end <= job.FirstBad(0)
      && r.value == job.Tokens(end) - job.Tokens(lo)
      && store.chunks == old(store.chunks) + job.Records(lo, end)
    ensures r.Failure? ==>
      && job.FirstBad(0) < |job.chunks|
      && job.FailingBatch() == lo
      && job.StopsWith(r.error)
      && store.chunks == old(store.chunks)
  {
    var end := Min(lo + BatchSize, |job.chunks|);
    var batch, tokens := EmbedBatch(job, lo, end);
    if batch.Failure? {
      // the batch's promise rejects: nothing of this batch is inserted
      FailingBatchStart(job, b, batch.error.chunkIndex);
      assert job.EmbeddingFailsIn(lo, end);
      return Failure(batch.error);
    }
    var ok := store.InsertMany(batch.value);
    if !ok {
      RejectedBatch(job, b, end);
      assert !job.EmbeddingFailsIn(lo, end);
      return Failure(ChunkInsertRejected);
    }
    StoredBatch(job, lo, end);
    r := Success(tokens);
  }

  /**
    The embedding stage. Batches of 10 consecutive chunks are embedded one
    after the other and each is inserted whole; the first batch holding a
    failed embedding or a record the schema rejects ends the run, and the
    batches before it stay stored. On success the result is the sum of the
    reported tokens and `batches` is `ceil(n / 10)`.
  */
  method EmbedChunks(store: Store, job: Batching) returns (r: Result<int, JobError>, ghost batches: nat)
    requires store.Valid()
    modifies store
    ensures store.Valid()
    ensures store.notes == old(store.notes) && store.usage == old(store.usage)
    ensures store.events == old(store.events) && store.nextId == old(store.nextId)
    ensures r.Success? <==> job.FirstBad(0) == |job.chunks|
    ensures r.Success? ==> r.value == job.Tokens(|job.chunks|)
    ensures r.Success? ==> store.chunks == old(store.chunks) + job.Records(0, |job.chunks|)
    ensures r.Success? ==> batches == (|job.chunks| + BatchSize - 1) / BatchSize
    ensures r.Failure? ==> store.chunks == old(store.chunks) + job.Records(0, job.FailingBatch())
    ensures r.Failure? ==> job.StopsWith(r.error)
  {
    var n := |job.chunks|;
    var total := 0;
    var i := 0;
    batches := 0;
    while i < n
      invariant i == batches * BatchSize
      invariant i < n + BatchSize
      invariant Min(i, n) <= job.FirstBad(0)
      invariant total == job.Tokens(Min(i, n))
      invariant store.Valid()
      invariant store.chunks == old(store.chunks) + job.Records(0, Min(i, n))
      invariant store.notes == old(store.notes) && store.usage == old(store.usage)
      invariant store.events == old(store.events) && store.nextId == old(store.nextId)
    {
      assert Min(i, n) == i;
      var stored := StoreBatch(store, job, i, batches);
      if stored.Failure? {
        return Failure(stored.error), batches;
      }
      RecordsSplit(job, 0, i, Min(i + BatchSize, n));
      total := total + stored.value;
      i := i + BatchSize;
      batches := batches + 1;
    }
    BatchCount(batches, n);
    r := Success(total);
  }

  // ------------------------------------------------------------- the job

  const MarkFailed: NoteUpdate := NoUpdate.(processingStatus := Some(ProcessingStatus.Failed))

  const MarkCompleted: NoteUpdate :=
    NoUpdate.(processingStatus := Some(ProcessingStatus.Completed), summaryStatus := Some(SummaryStatus.Pending))

  /** The save step: the cleaned text, status `embedding`, and the page count. */
  function SaveText(text: string, pages: int): NoteUpdate {
    NoUpdate.(content := Some(text), processingStatus := Some(ProcessingStatus.Embedding), pageCount := Some(pages))
  }

  /** The save step sets the cleaned text, status `embedding` and the page count, and keeps the rest of the note. */
  lemma SaveTextSets(n: Note, text: string, pages: int)
    ensures ApplyUpdate(n, SaveText(text, pages))
            == n.(content := text, processingStatus := ProcessingStatus.Embedding,
                  metadata := n.metadata.(pageCount := Some(pages)))
  {
  }

  /** A failed run sets processing status `failed` and nothing else. */
  lemma MarkFailedSets(n: Note)
    ensures ApplyUpdate(n, MarkFailed) == n.(processingStatus := ProcessingStatus.Failed)
  {
  }

  /** A complete run sets processing status `completed` and summary status `pending`, and nothing else. */
  lemma MarkCompletedSets(n: Note)
    ensures ApplyUpdate(n, MarkCompleted)
            == n.(processingStatus := ProcessingStatus.Completed, summaryStatus := SummaryStatus.Pending)
  {
  }

  /** The usage record of the embedding stage: all tokens as prompt tokens, priced for the embedding model. */
  function PdfUsage(event: PdfProcessRequested, tokens: int, now: int): (u: UsageRecord)
    ensures u.userId == event.userId && u.noteId == Some(event.noteId)
    ensures u.feature == PdfUpload && u.aiMode == Rag && u.operation == Some(Operation.Embedding)
    ensures u.model == Some(EmbeddingModel)
    ensures u.promptToken == Some(tokens) && u.completionToken == Some(0) && u.totalTokens == Some(tokens)
    ensures u.costUSD == Some(tokens as real * 0.00002 / 1000.0)
  {
    EmbeddingCost(tokens);
    var cost := CalculateCost(EmbeddingModel, Some(tokens), None).value.totalCost;
    UsageRecord(event.userId, Some(event.noteId), PdfUpload, Rag, Some(Operation.Embedding),
                Some(EmbeddingModel), Some(tokens), Some(0), Some(tokens), Some(cost), now)
  }

  /** The saved text always gives at least one chunk, and none of them is empty. */
  lemma PdfChunksNonEmpty(text: string)
    requires IsCleaned(text) && |text| >= MinTextLength
    ensures |PdfChunks(text)| >= 1
    ensures forall k :: 0 <= k < |PdfChunks(text)| ==> PdfChunks(text)[k] != ""
  {
    FirstChunkStartsAtZero(Split(text), DefaultChunkSize, DefaultChunkSize - DefaultOverlap);
    forall k | 0 <= k < |PdfChunks(text)|
      ensures PdfChunks(text)[k] != ""
    {
      CleanedTextChunksNonEmpty(text, DefaultChunkSize, DefaultChunkSize - DefaultOverlap, k);
    }
  }

  /**
    For saved text the chunk schema rejects a record only when the event has
    no owner: with an owner, a run stops exactly at a failed embedding.
  */
  lemma OnlyEmbeddingFailuresStopAnOwnedRun(event: PdfProcessRequested, text: string, embed: string -> EmbedReply, i: nat)
    requires IsCleaned(text) && |text| >= MinTextLength
    requires i < |PdfChunks(text)|
    ensures event.userId != "" ==> (PdfBatching(event, text, embed).Bad(i) <==> embed(PdfChunks(text)[i]).EmbedFailed?)
    ensures event.userId == "" ==> PdfBatching(event, text, embed).Bad(i)
  {
    PdfChunksNonEmpty(text);
  }

  /**
    What the chunk, embed and mark-completed steps leave behind, from the
    notes, chunks and usage before them (`notes0`, `chunks0`, `usage0`) to
    those after them. A run stopped at a bad chunk throws an error
    `StopsWith` describes, marks the note failed and keeps the batches before
    the failing one; a complete run stores every record, adds one usage
    record, marks the note completed with summary status pending and yields
    the number of chunks.
  */
  ghost predicate StageOutcome(job: Batching, event: PdfProcessRequested, now: int, r: Result<nat, JobError>,
                               notes0: map<NoteId, Note>, chunks0: seq<ChunkRecord>, usage0: seq<UsageRecord>,
                               notes: map<NoteId, Note>, chunks: seq<ChunkRecord>, usage: seq<UsageRecord>)
  {
    var n := |job.chunks|;
    && (job.FirstBad(0) < n ==>
          && r.Failure? && job.StopsWith(r.error)
          && notes == UpdateById(notes0, event.noteId, MarkFailed)
          && chunks == chunks0 + job.Records(0, job.FailingBatch())
          && usage == usage0)
    && (job.FirstBad(0) == n ==>
          && r == Success(n)
          && notes == UpdateById(notes0, event.noteId, MarkCompleted)
          && chunks == chunks0 + job.Records(0, n)
          && usage == usage0 + [PdfUsage(event, job.Tokens(n), now)])
  }

  /**
    `processPdf` for one event. Over the daily limit it throws before any
    step and the note keeps its status. An extraction failure or too short a
    text marks the note failed. Otherwise the cleaned text is saved with
    status `embedding`; a failed batch marks the note failed and keeps the
    earlier batches; a complete run adds one usage record, marks the note
    completed with summary status pending and returns the chunk count.
  */
  method ProcessPdf(store: Store, event: PdfProcessRequested, midnight: int, now: int,
                    extract: Bytes -> ExtractReply, embed: string -> EmbedReply)
    returns (r: Result<PdfResult, JobError>)
    requires store.Valid()
    modifies store
    ensures store.Valid()
    ensures store.events == old(store.events) && store.nextId == old(store.nextId)
    ensures old(DailySpend(store.usage, event.userId, midnight)) >= DailyLimitUSD ==>
      && r == Failure(DailyLimitReached)
      && store.notes == old(store.notes) && store.chunks == old(store.chunks) && store.usage == old(store.usage)
    ensures old(DailySpend(store.usage, event.userId, midnight)) < DailyLimitUSD
            && ExtractedText(extract(event.pdfBytes)).Failure? ==>
      && r == Failure(ExtractedText(extract(event.pdfBytes)).error)
      && store.notes == UpdateById(old(store.notes), event.noteId, MarkFailed)
      && store.chunks == old(store.chunks) && store.usage == old(store.usage)
    ensures old(DailySpend(store.usage, event.userId, midnight)) < DailyLimitUSD
            && ExtractedText(extract(event.pdfBytes)).Success? ==>
      var (text, pages) := ExtractedText(extract(event.pdfBytes)).value;
      && StageOutcome(PdfBatching(event, text, embed), event, now,
                      if r.Success? then Success(r.value.chunkCount) else Failure(r.error),
                      UpdateById(old(store.notes), event.noteId, SaveText(text, pages)), old(store.chunks), old(store.usage),
                      store.notes, store.chunks, store.usage)
      && (r.Success? ==> r.value == PdfResult(event.noteId, r.value.chunkCount, pages, |text|))
    ensures old(DailySpend(store.usage, event.userId, midnight)) < DailyLimitUSD && event.noteId in old(store.notes) ==>
      && event.noteId in store.notes
      && store.notes[event.noteId].processingStatus
         == (if r.Success? then ProcessingStatus.Completed else ProcessingStatus.Failed)
  {
    var spent := CheckDailyLimit(store.usage, event.userId, midnight, DailyLimitUSD);
    if spent >= DailyLimitUSD {
      return Failure(DailyLimitReached);
    }

    var extracted := ExtractedText(extract(event.pdfBytes));
    if extracted.Failure? {
      store.FindByIdAndUpdate(event.noteId, MarkFailed);
      return Failure(extracted.error);
    }
    var (text, pages) := extracted.value;

    store.FindByIdAndUpdate(event.noteId, SaveText(text, pages));

    var chunkCount := EmbedStage(store, event, text, now, embed);
    if chunkCount.Failure? {
      return Failure(chunkCount.error);
    }
    r := Success(PdfResult(event.noteId, chunkCount.value, pages, |text|));
  }

  /**
    The chunk, embed and mark-completed steps for the saved text: a failed
    run marks the note failed and keeps the earlier batches; a complete run
    adds one usage record, marks the note completed with summary status
    pending and returns the number of chunks.
  */
  method EmbedStage(store: Store, event: PdfProcessRequested, text: string, now: int, embed: string -> EmbedReply)
    returns (r: Result<nat, JobError>)
    requires store.Valid()
    requires IsCleaned(text) && |text| >= MinTextLength
    modifies store
    ensures store.Valid()
    ensures store.events == old(store.events) && store.nextId == old(store.nextId)
    ensures StageOutcome(PdfBatching(event, text, embed), event, now, r,
                         old(store.notes), old(store.chunks), old(store.usage),
                         store.notes, store.chunks, store.usage)
  {
    var chunks := ChunkText(text, DefaultChunkSize, DefaultOverlap);
    var job := Batching(event.noteId, event.userId, chunks, embed);

    var embedded, batches := EmbedChunks(store, job);
    if embedded.Failure? {
      store.FindByIdAndUpdate(event.noteId, MarkFailed);
      return Failure(embedded.error);
    }

    // The first record passed the chunk schema, so the owner is present and the usage record is accepted.
    PdfChunksNonEmpty(text);
    assert ValidChunk(job.Record(0));
    var created := store.CreateUsage(PdfUsage(event, embedded.value, now));
    assert created;

    store.FindByIdAndUpdate(event.noteId, MarkCompleted);
    r := Success(|chunks|);
  }

  // ------------------------------------------------------------ summarize

  const SummaryModel: string := GeminiFlashLatest

  /** The prompt sent to the generator for a note's content. */
  function SummaryPrompt(content: string): string {
    "Summarize the following note in 2-3 clear bullet points:\n\n" + content
  }

  const MarkSummaryFailed: NoteUpdate := NoUpdate.(summaryStatus := Some(SummaryStatus.Failed))

  function StoreSummary(summary: string): NoteUpdate {
    NoUpdate.(summary := Some(summary), summaryStatus := Some(SummaryStatus.Completed))
  }

  /** A failed summary run sets summary status `failed` and nothing else. */
  lemma MarkSummaryFailedSets(n: Note)
    ensures ApplyUpdate(n, MarkSummaryFailed) == n.(summaryStatus := SummaryStatus.Failed)
  {
  }

  /** A summary is stored with status `completed`; nothing else changes. */
  lemma StoreSummarySets(n: Note, summary: string)
    ensures ApplyUpdate(n, StoreSummary(summary))
            == n.(summary := Some(summary), summaryStatus := SummaryStatus.Completed)
  {
  }

  /** The usage record of a summary: missing counts are 0 and the total is their sum. */
  function SummaryUsage(noteId: NoteId, userId: string, reply: GenReply, now: int): (u: UsageRecord)
    requires !reply.GenFailed?
    ensures u.userId == userId && u.noteId == Some(noteId)
    ensures u.feature == NoteSummary && u.aiMode == Direct && u.operation == Some(Generation)
    ensures u.model == Some(GeminiFlashLatest)
    ensures u.promptToken == Some(TokensOrZero(reply.promptTokenCount))
    ensures u.completionToken == Some(TokensOrZero(reply.candidatesTokenCount))
    ensures u.totalTokens == Some(TokensOrZero(reply.promptTokenCount) + TokensOrZero(reply.candidatesTokenCount))
    ensures u.costUSD.Some? && u.costUSD.value
            == TokensOrZero(reply.promptTokenCount) as real / 1000.0 * 0.00035
               + TokensOrZero(reply.candidatesTokenCount) as real / 1000.0 * 0.00105
  {
    var p := TokensOrZero(reply.promptTokenCount);
    var c := TokensOrZero(reply.candidatesTokenCount);
    var cost := CalculateCost(SummaryModel, Some(p), Some(c)).value.totalCost;
    UsageRecord(userId, Some(noteId), NoteSummary, Direct, Some(Generation), Some(SummaryModel),
                Some(p), Some(c), Some(p + c), Some(cost), now)
  }

  /**
    `summarizeNote` for one event. Over the daily limit, for an unknown note,
    for a note of another owner, or when generation fails, it marks the
    summary failed (a no-op for an unknown note) and throws. A reply that
    arrives is recorded as usage before its text is read; when the text
    cannot be read the summary is marked failed too. Otherwise the summary
    is stored with status completed.
  */
  method SummarizeNote(store: Store, noteId: NoteId, userId: string, midnight: int, now: int,
                       generate: string -> GenReply)
    returns (r: Result<string, JobError>)
    requires store.Valid()
    modifies store
    ensures store.Valid()
    ensures store.chunks == old(store.chunks) && store.events == old(store.events) && store.nextId == old(store.nextId)
    ensures r.Failure? ==> store.notes == UpdateById(old(store.notes), noteId, MarkSummaryFailed)
    ensures old(DailySpend(store.usage, userId, midnight)) >= DailyLimitUSD ==>
      r == Failure(DailyLimitReached) && store.usage == old(store.usage)
    ensures old(DailySpend(store.usage, userId, midnight)) < DailyLimitUSD ==>
      && (noteId !in old(store.notes) ==> r == Failure(NoteNotFound) && store.usage == old(store.usage))
      && (noteId in old(store.notes) && old(store.notes)[noteId].userId != userId ==>
            r == Failure(Unauthorized) && store.usage == old(store.usage))
      && (noteId in old(store.notes) && old(store.notes)[noteId].userId == userId ==>
            var reply := generate(SummaryPrompt(old(store.notes)[noteId].content));
            && (reply.GenFailed? ==> r == Failure(GenerationError(reply.message)) && store.usage == old(store.usage))
            && (reply.Unreadable? ==>
                  && r == Failure(GenerationError(reply.message))
                  && store.usage == old(store.usage) + [SummaryUsage(noteId, userId, reply, now)])
            && (reply.Generated? ==>
                  && r == Success(reply.text)
                  && store.usage == old(store.usage) + [SummaryUsage(noteId, userId, reply, now)]
                  && store.notes == UpdateById(old(store.notes), noteId, StoreSummary(reply.text))))
  {
    var spent := CheckDailyLimit(store.usage, userId, midnight, DailyLimitUSD);
    if spent >= DailyLimitUSD {
      r := Failure(DailyLimitReached);
    } else if noteId !in store.notes {
      r := Failure(NoteNotFound);
    } else if store.notes[noteId].userId != userId {
      r := Failure(Unauthorized);
    } else {
      var reply := generate(SummaryPrompt(store.notes[noteId].content));
      if reply.GenFailed? {
        r := Failure(GenerationError(reply.message));
      } else {
        // The owner matches a stored note's owner, which the note schema requires.
        var created := store.CreateUsage(SummaryUsage(noteId, userId, reply, now));
        assert created;
        if reply.Unreadable? {
          r := Failure(GenerationError(reply.message));
        } else {
          store.FindByIdAndUpdate(noteId, StoreSummary(reply.text));
          return Success(reply.text);
        }
      }
    }
    store.FindByIdAndUpdate(noteId, MarkSummaryFailed);
  }
}

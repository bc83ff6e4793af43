/**
  The stored records the pipeline reads and writes (the `Note`, `AiUsage` and
  `NoteChunk` collections), their enumerations with the strings stored for
  them, their defaults, and the field rules a create or insert enforces.
  The event the upload sends to the background job lives here too.
*/
module Records {
  import opened Wrappers
  import opened JsString

  type NoteId = nat

  type Bytes = seq<bv8>

  // ------------------------------------------------------------ enumerations

  datatype SummaryStatus = Pending | Processing | Completed | Failed

  datatype ProcessingStatus = Pending | Processing | Embedding | Completed | Failed

  datatype Source = Manual | Pdf

  datatype Feature = PdfUpload | NoteSummary | NoteQuestion | PdfQuestion | SmartAssistant

  datatype AiMode = Direct | Rag | Agent

  datatype Operation = Embedding | Generation | Retrieval | ToolCall

  function SummaryStatusName(s: SummaryStatus): string {
    match s
    case Pending => "pending"
    case Processing => "processing"
    case Completed => "completed"
    case Failed => "failed"
  }

  /** The schema's enum check on `summaryStatus`: accepts exactly the four stored names. */
  function ParseSummaryStatus(w: string): (r: Option<SummaryStatus>)
    ensures r.Some? ==> SummaryStatusName(r.value) == w
    ensures r.None? ==> forall s :: SummaryStatusName(s) != w
  {
    if w == "pending" then Some(SummaryStatus.Pending)
    else if w == "processing" then Some(SummaryStatus.Processing)
    else if w == "completed" then Some(SummaryStatus.Completed)
    else if w == "failed" then Some(SummaryStatus.Failed)
    else None
  }

  function ProcessingStatusName(s: ProcessingStatus): string {
    match s
    case Pending => "pending"
    case Processing => "processing"
    case Embedding => "embedding"
    case Completed => "completed"
    case Failed => "failed"
  }

  /** The schema's enum check on `processingStatus`: accepts exactly the five stored names. */
  function ParseProcessingStatus(w: string): (r: Option<ProcessingStatus>)
    ensures r.Some? ==> ProcessingStatusName(r.value) == w
    ensures r.None? ==> forall s :: ProcessingStatusName(s) != w
  {
    if w == "pending" then Some(ProcessingStatus.Pending)
    else if w == "processing" then Some(ProcessingStatus.Processing)
    else if w == "embedding" then Some(ProcessingStatus.Embedding)
    else if w == "completed" then Some(ProcessingStatus.Completed)
    else if w == "failed" then Some(ProcessingStatus.Failed)
    else None
  }

  function SourceName(s: Source): string {
    match s
    case Manual => "manual"
    case Pdf => "pdf"
  }

  /** The schema's enum check on `source`. */
  function ParseSource(w: string): (r: Option<Source>)
    ensures r.Some? ==> SourceName(r.value) == w
    ensures r.None? ==> forall s :: SourceName(s) != w
  {
    if w == "manual" then Some(Manual)
    else if w == "pdf" then Some(Pdf)
    else None
  }

  function FeatureName(f: Feature): string {
    match f
    case PdfUpload => "pdf-upload"
    case NoteSummary => "note-summary"
    case NoteQuestion => "note-question"
    case PdfQuestion => "pdf-question"
    case SmartAssistant => "smart-assistant"
  }

  /** The schema's enum check on the usage record's `feature`. */
  function ParseFeature(w: string): (r: Option<Feature>)
    ensures r.Some? ==> FeatureName(r.value) == w
    ensures r.None? ==> forall f :: FeatureName(f) != w
  {
    if w == "pdf-upload" then Some(PdfUpload)
    else if w == "note-summary" then Some(NoteSummary)
    else if w == "note-question" then Some(NoteQuestion)
    else if w == "pdf-question" then Some(PdfQuestion)
    else if w == "smart-assistant" then Some(SmartAssistant)
    else None
  }

  function AiModeName(m: AiMode): string {
    match m
    case Direct => "direct"
    case Rag => "rag"
    case Agent => "agent"
  }

  /** The schema's enum check on the usage record's `aiMode`. */
  function ParseAiMode(w: string): (r: Option<AiMode>)
    ensures r.Some? ==> AiModeName(r.value) == w
    ensures r.None? ==> forall m :: AiModeName(m) != w
  {
    if w == "direct" then Some(Direct)
    else if w == "rag" then Some(Rag)
    else if w == "agent" then Some(Agent)
    else None
  }

  function OperationName(o: Operation): string {
    match o
    case Embedding => "embedding"
    case Generation => "generation"
    case Retrieval => "retrieval"
    case ToolCall => "tool-call"
  }

  /** The schema's enum check on the usage record's optional `operation`. */
  function ParseOperation(w: string): (r: Option<Operation>)
    ensures r.Some? ==> OperationName(r.value) == w
    ensures r.None? ==> forall o :: OperationName(o) != w
  {
    if w == "embedding" then Some(Operation.Embedding)
    else if w == "generation" then Some(Generation)
    else if w == "retrieval" then Some(Retrieval)
    else if w == "tool-call" then Some(ToolCall)
    else None
  }

  // -------------------------------------------------------------------- Note

  const MaxTitleLength: nat := 2000

  /** `metadata`; every field is `null` unless given. Times are integer timestamps. */
  datatype Metadata = Metadata(
    fileName: Option<string>,
    fileSize: Option<int>,
    pageCount: Option<int>,
    uploadedAt: Option<int>)

  /** A stored note; `createdAt` is the timestamp the collection adds on create. */
  datatype Note = Note(
    id: NoteId,
    title: string,
    userId: string,
    content: string,
    summary: Option<string>,
    summaryStatus: SummaryStatus,
    processingStatus: ProcessingStatus,
    source: Source,
    metadata: Metadata,
    createdAt: int)

  /** The fields a caller passes to `Note.create`; `None` means the field is left out. */
  datatype NoteInput = NoteInput(
    title: string,
    userId: string,
    content: Option<string>,
    summaryStatus: Option<SummaryStatus>,
    processingStatus: Option<ProcessingStatus>,
    source: Option<Source>,
    fileName: Option<string>,
    fileSize: Option<int>,
    uploadedAt: Option<int>)

  /**
    The note `Note.create` builds from `input`: the title trimmed, and every
    field left out takes the schema's default: content "", summary status
    pending, processing status completed, source manual, metadata null.
  */
  function NoteFromInput(input: NoteInput, id: NoteId, now: int): (n: Note)
    ensures n.id == id && n.userId == input.userId && n.createdAt == now
    ensures n.title == Trim(input.title)
    ensures n.content == input.content.GetOr("")
    ensures n.summary == None
    ensures n.summaryStatus == input.summaryStatus.GetOr(SummaryStatus.Pending)
    ensures n.processingStatus == input.processingStatus.GetOr(ProcessingStatus.Completed)
    ensures n.source == input.source.GetOr(Manual)
    ensures n.metadata == Metadata(input.fileName, input.fileSize, None, input.uploadedAt)
  {
    Note(id, Trim(input.title), input.userId, input.content.GetOr(""), None,
         input.summaryStatus.GetOr(SummaryStatus.Pending),
         input.processingStatus.GetOr(ProcessingStatus.Completed),
         input.source.GetOr(Manual),
         Metadata(input.fileName, input.fileSize, None, input.uploadedAt),
         now)
  }

  /**
    The field rules of a stored note: an owner, and a title of 1 to 2000
    characters that neither starts nor ends with white space.
  */
  predicate ValidNote(n: Note) {
    && n.title != ""
    && |n.title| <= MaxTitleLength
    && !IsSpace(n.title[0]) && !IsSpace(n.title[|n.title| - 1])
    && Required(n.userId)
  }

  /** A stored note's title is its own trim: the schema's `trim` has nothing left to remove. */
  lemma ValidNoteIsTrimmed(n: Note)
    requires ValidNote(n)
    ensures Trim(n.title) == n.title
  {
    var t := n.title;
    assert TrimStart(t) == t;
    assert TrimEnd(t) == t;
  }

  /** Mongoose's `required` on a string: a missing value and the empty string both fail. */
  predicate Required(s: string) {
    s != ""
  }

  /**
    A create is accepted exactly when the title holds a character that is
    not white space, the trimmed title has at most 2000 characters, and the
    owner is given.
  */
  predicate AcceptsNote(input: NoteInput) {
    Trim(input.title) != "" && |Trim(input.title)| <= MaxTitleLength && Required(input.userId)
  }

  /** The create's rules restated on the raw input: the title must hold some non-white-space character. */
  lemma AcceptsNoteMeans(input: NoteInput)
    ensures AcceptsNote(input) <==>
      NonSpace(input.title) != [] && |Trim(input.title)| <= MaxTitleLength && input.userId != ""
  {
    TrimBlankIffNoText(input.title);
  }

  /** Every note a create accepts satisfies the schema's rules. */
  lemma CreatedNoteValid(input: NoteInput, id: NoteId, now: int)
    requires AcceptsNote(input)
    ensures ValidNote(NoteFromInput(input, id, now))
  {
    TrimFacts(input.title);
  }

  // ------------------------------------------------------------------ AiUsage

  /** A usage record; `createdAt` is the timestamp the daily spend filters on. */
  datatype UsageRecord = UsageRecord(
    userId: string,
    noteId: Option<NoteId>,
    feature: Feature,
    aiMode: AiMode,
    operation: Option<Operation>,
    model: Option<string>,
    promptToken: Option<int>,
    completionToken: Option<int>,
    totalTokens: Option<int>,
    costUSD: Option<real>,
    createdAt: int)

  /**
    The field rules of a usage record: the owner is required; feature and
    mode are required too, and their types always hold one of the listed
    values.
  */
  predicate ValidUsage(u: UsageRecord) {
    Required(u.userId)
  }

  // ---------------------------------------------------------------- NoteChunk

  /**
    A chunk record as the pipeline writes it. `chunkIndex` is supplied by the
    pipeline although the chunk schema declares no such field.
  */
  datatype ChunkRecord = ChunkRecord(
    noteId: NoteId,
    userId: string,
    text: string,
    embedding: seq<real>,
    chunkIndex: nat)

  /**
    The field rules of a chunk: owner and text are required; the note id and
    the vector are always present in a record.
  */
  predicate ValidChunk(c: ChunkRecord) {
    Required(c.userId) && Required(c.text)
  }

  // ------------------------------------------------------------------- events

  /** The `pdf/process.requested` event, with the uploaded file's bytes. */
  datatype PdfProcessRequested = PdfProcessRequested(
    noteId: NoteId,
    userId: string,
    fileName: string,
    fileSize: int,
    pdfBytes: Bytes)
}

/**
  The PDF upload endpoint: an ordered chain of checks (signed-in user, a
  file, its MIME type, its size, today's spend), then a note in status
  `processing` and one `pdf/process.requested` event for the background job.
*/
module Upload {
  import opened Wrappers
  import opened JsString
  import opened Records
  import opened AiCost
  import opened Store

  /** The signed-in user as the auth provider reports it. */
  datatype User = User(id: string)

  /** The `file` form field: its name, MIME type, size in bytes and contents. */
  datatype UploadFile = UploadFile(name: string, mimeType: string, size: int, bytes: Bytes)

  /** The JSON reply: an error message, or the acceptance of the upload. */
  datatype Body =
    | ErrorBody(error: string)
    | AcceptedBody(noteId: NoteId, message: string, status: string)

  datatype Response = Response(status: int, body: Body)

  const MaxSize: int := 10 * 1024 * 1024
  const PdfMimeType: string := "application/pdf"

  /**
    The checks before anything is written, in the order the endpoint runs
    them; `None` when the upload passes all of them.
  */
  function Gate(user: Option<User>, file: Option<UploadFile>, usage: seq<UsageRecord>, midnight: int): (r: Option<Response>)
    ensures user.None? ==> r == Some(Response(401, ErrorBody("Unauthorized")))
    ensures user.Some? && file.None? ==> r == Some(Response(400, ErrorBody("No PDF uploaded")))
    ensures user.Some? && file.Some? && file.value.mimeType != PdfMimeType ==>
      r == Some(Response(400, ErrorBody("Only PDF files allowed")))
    ensures user.Some? && file.Some? && file.value.mimeType == PdfMimeType && file.value.size > MaxSize ==>
      r == Some(Response(400, ErrorBody("File too large (max 10MB)")))
    ensures user.Some? && file.Some? && file.value.mimeType == PdfMimeType && file.value.size <= MaxSize
            && DailySpend(usage, user.value.id, midnight) >= DailyLimitUSD ==>
      r == Some(Response(429, ErrorBody("Daily AI usage limit reached")))
    ensures r.None? <==>
      && user.Some? && file.Some?
      && file.value.mimeType == PdfMimeType && file.value.size <= MaxSize
      && DailySpend(usage, user.value.id, midnight) < DailyLimitUSD
  {
    if user.None? then Some(Response(401, ErrorBody("Unauthorized")))
    else if file.None? then Some(Response(400, ErrorBody("No PDF uploaded")))
    else if file.value.mimeType != PdfMimeType then Some(Response(400, ErrorBody("Only PDF files allowed")))
    else if file.value.size > MaxSize then Some(Response(400, ErrorBody("File too large (max 10MB)")))
    else if CheckDailyLimit(usage, user.value.id, midnight, DailyLimitUSD) >= DailyLimitUSD then
      Some(Response(429, ErrorBody("Daily AI usage limit reached")))
    else None
  }

  /** The size limit is inclusive: exactly 10 MiB passes, one byte more does not. */
  lemma SizeLimitInclusive(user: User, file: UploadFile, usage: seq<UsageRecord>, midnight: int)
    requires file.mimeType == PdfMimeType
    requires DailySpend(usage, user.id, midnight) < DailyLimitUSD
    ensures file.size == 10485760 ==> Gate(Some(user), Some(file), usage, midnight).None?
    ensures file.size == 10485761 ==>
      Gate(Some(user), Some(file), usage, midnight) == Some(Response(400, ErrorBody("File too large (max 10MB)")))
  {
  }

  /** The note title: the file name with the first ".pdf" removed. */
  function UploadTitle(fileName: string): (t: string)
    ensures !Includes(fileName, ".pdf") ==> t == fileName
    ensures Includes(fileName, ".pdf") ==> |t| == |fileName| - 4
  {
    ReplaceFirst(fileName, ".pdf", "")
  }

  /** Only the first ".pdf" goes: "a.pdf.pdf" becomes "a.pdf". */
  lemma DoubleExtensionKeepsOne()
    ensures UploadTitle("a.pdf.pdf") == "a.pdf"
  {
    var s := "a.pdf.pdf";
    assert !OccursAt(s, ".pdf", 0) by { assert s[0] != '.'; }
    assert OccursAt(s, ".pdf", 1) by { assert s[1..5] == ".pdf"; }
    assert IndexOfFrom(s, ".pdf", 1) == Some(1);
    assert IndexOf(s, ".pdf") == Some(1);
    assert s[..1] + "" + s[5..] == "a.pdf";
  }

  /** What the endpoint passes to `Note.create`. */
  function UploadNoteInput(user: User, file: UploadFile, now: int): NoteInput {
    NoteInput(UploadTitle(file.name), user.id, Some(""), Some(SummaryStatus.Pending),
              Some(ProcessingStatus.Processing), Some(Pdf), Some(file.name), Some(file.size), Some(now))
  }

  /**
    The stored note of an accepted upload: empty content, source pdf,
    processing status `processing`, summary pending, file name and size in
    the metadata and no page count yet.
  */
  lemma UploadedNoteShape(user: User, file: UploadFile, id: NoteId, now: int)
    ensures
      var n := NoteFromInput(UploadNoteInput(user, file, now), id, now);
      && n.content == "" && n.source == Pdf && n.summary == None
      && n.processingStatus == ProcessingStatus.Processing && n.summaryStatus == SummaryStatus.Pending
      && n.metadata == Metadata(Some(file.name), Some(file.size), None, Some(now))
      && n.title == Trim(UploadTitle(file.name)) && n.userId == user.id
  {
  }

  /** A name that is only the extension leaves an empty title, which the note schema refuses. */
  lemma BareExtensionIsRefused(user: User, file: UploadFile, now: int)
    requires file.name == ".pdf"
    ensures !AcceptsNote(UploadNoteInput(user, file, now))
  {
    assert OccursAt(file.name, ".pdf", 0);
    assert UploadTitle(file.name) == "";
  }

  /** The event that hands the note to the background job. */
  function UploadEvent(user: User, file: UploadFile, id: NoteId): PdfProcessRequested {
    PdfProcessRequested(id, user.id, file.name, file.size, file.bytes)
  }

  /** The catch-all reply: the error's message, or a fixed text when it has none. */
  function ServerError(message: string): (r: Response)
    ensures r.status == 500
    ensures r.body.ErrorBody? && r.body.error != ""
    ensures message != "" ==> r.body.error == message
    ensures message == "" ==> r.body.error == "Failed to process PDF"
  {
    Response(500, ErrorBody(if message == "" then "Failed to process PDF" else message))
  }

  const NoteRejected: string := "Note validation failed"

  /**
    `POST /api/ai/notes/uploadpdf`. A failed database connection gives 500
    before anything else. A rejected upload writes nothing. An accepted one
    creates the note; if the note's field rules fail, nothing is stored and
    the reply is 500. If the event cannot be sent, the note stays and the
    reply is 500; otherwise the event is queued once and the reply names the
    new note with status `processing`.
  */
  method UploadPdf(store: Store, connectError: Option<string>, user: Option<User>, file: Option<UploadFile>,
                   midnight: int, now: int, sendError: Option<string>)
    returns (resp: Response)
    requires store.Valid()
    modifies store
    ensures store.Valid()
    ensures store.chunks == old(store.chunks) && store.usage == old(store.usage)
    ensures connectError.Some? ==>
      resp == ServerError(connectError.value) && store.notes == old(store.notes) && store.events == old(store.events)
    ensures connectError.None? && Gate(user, file, old(store.usage), midnight).Some? ==>
      && resp == Gate(user, file, old(store.usage), midnight).value
      && store.notes == old(store.notes) && store.events == old(store.events) && store.nextId == old(store.nextId)
    ensures connectError.None? && Gate(user, file, old(store.usage), midnight).None? ==>
      var input := UploadNoteInput(user.value, file.value, now);
      var id := old(store.nextId);
      && (!AcceptsNote(input) ==>
            && resp == ServerError(NoteRejected)
            && store.notes == old(store.notes) && store.events == old(store.events) && store.nextId == old(store.nextId))
      && (AcceptsNote(input) ==>
            && store.notes == old(store.notes)[id := NoteFromInput(input, id, now)]
            && (sendError.Some? ==> resp == ServerError(sendError.value) && store.events == old(store.events))
            && (sendError.None? ==>
                  && resp == Response(200, AcceptedBody(id, "PDF uploaded. Processing in background...", "processing"))
                  && store.events == old(store.events) + [UploadEvent(user.value, file.value, id)]))
  {
    if connectError.Some? {
      return ServerError(connectError.value);
    }
    var refused := Gate(user, file, store.usage, midnight);
    if refused.Some? {
      return refused.value;
    }
    var created := store.CreateNote(UploadNoteInput(user.value, file.value, now), now);
    if created.None? {
      return ServerError(NoteRejected);
    }
    if sendError.Some? {
      return ServerError(sendError.value);
    }
    store.Send(UploadEvent(user.value, file.value, created.value));
    resp := Response(200, AcceptedBody(created.value, "PDF uploaded. Processing in background...", "processing"));
  }
}

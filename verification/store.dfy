/**
  The database as the pipeline sees it: the notes by id, the chunk and usage
  collections in insertion order, and the queue of events sent to the
  background job. Creates and inserts run the schema's field rules and
  write nothing when they fail; `findByIdAndUpdate` runs no rules and does
  nothing when the id is unknown.
*/
module Store {
  import opened Wrappers
  import opened Records

  /** The fields a `findByIdAndUpdate` sets (`$set`); `None` leaves a field alone. */
  datatype NoteUpdate = NoteUpdate(
    content: Option<string>,
    summary: Option<string>,
    summaryStatus: Option<SummaryStatus>,
    processingStatus: Option<ProcessingStatus>,
    pageCount: Option<int>)

  const NoUpdate := NoteUpdate(None, None, None, None, None)

  /** Sets exactly the fields the update names and keeps every other field of `n`. */
  function ApplyUpdate(n: Note, u: NoteUpdate): (m: Note)
    ensures m.id == n.id && m.title == n.title && m.userId == n.userId
    ensures m.source == n.source && m.createdAt == n.createdAt
    ensures m.content == u.content.GetOr(n.content)
    ensures m.summary == (if u.summary.Some? then u.summary else n.summary)
    ensures m.summaryStatus == u.summaryStatus.GetOr(n.summaryStatus)
    ensures m.processingStatus == u.processingStatus.GetOr(n.processingStatus)
    ensures m.metadata == n.metadata.(pageCount := if u.pageCount.Some? then u.pageCount else n.metadata.pageCount)
  {
    n.(content := u.content.GetOr(n.content),
       summary := if u.summary.Some? then u.summary else n.summary,
       summaryStatus := u.summaryStatus.GetOr(n.summaryStatus),
       processingStatus := u.processingStatus.GetOr(n.processingStatus),
       metadata := n.metadata.(pageCount := if u.pageCount.Some? then u.pageCount else n.metadata.pageCount))
  }

  /** The notes after `findByIdAndUpdate(id, u)`: unchanged when no note has that id. */
  function UpdateById(notes: map<NoteId, Note>, id: NoteId, u: NoteUpdate): (m: map<NoteId, Note>)
    ensures m.Keys == notes.Keys
    ensures id in notes ==> m[id] == ApplyUpdate(notes[id], u)
    ensures forall other :: other in notes && other != id ==> m[other] == notes[other]
  {
    if id in notes then notes[id := ApplyUpdate(notes[id], u)] else notes
  }

  /** An update keeps a note's field rules: it never touches title or owner. */
  lemma UpdateKeepsValid(n: Note, u: NoteUpdate)
    requires ValidNote(n)
    ensures ValidNote(ApplyUpdate(n, u))
  {
  }

  class Store {
    var notes: map<NoteId, Note>
    var chunks: seq<ChunkRecord>
    var usage: seq<UsageRecord>
    var events: seq<PdfProcessRequested>
    var nextId: NoteId

    /** Every stored record satisfies its schema, and note ids are keys below `nextId`. */
    ghost predicate Valid()
      reads this
      ensures Valid() ==> nextId !in notes
    {
      && (forall id :: id in notes ==> notes[id].id == id && id < nextId && ValidNote(notes[id]))
      && (forall i :: 0 <= i < |chunks| ==> ValidChunk(chunks[i]))
      && (forall i :: 0 <= i < |usage| ==> ValidUsage(usage[i]))
    }

    constructor ()
      ensures Valid()
      ensures notes == map[] && chunks == [] && usage == [] && events == [] && nextId == 0
    {
      notes := map[];
      chunks := [];
      usage := [];
      events := [];
      nextId := 0;
    }

    /** `Note.create(input)`: stores the note with a fresh id, or fails its field rules and stores nothing. */
    method CreateNote(input: NoteInput, now: int) returns (r: Option<NoteId>)
      requires Valid()
      modifies this
      ensures Valid()
      ensures r.Some? <==> AcceptsNote(input)
      ensures r.Some? ==> r.value == old(nextId) && r.value !in old(notes)
      ensures r.Some? ==> notes == old(notes)[r.value := NoteFromInput(input, r.value, now)] && nextId == old(nextId) + 1
      ensures r.None? ==> notes == old(notes) && nextId == old(nextId)
      ensures chunks == old(chunks) && usage == old(usage) && events == old(events)
    {
      if AcceptsNote(input) {
        var id := nextId;
        var note := NoteFromInput(input, id, now);
        CreatedNoteValid(input, id, now);
        notes := notes[id := note];
        nextId := nextId + 1;
        r := Some(id);
      } else {
        r := None;
      }
    }

    /** `Note.findByIdAndUpdate(id, u)`. */
    method FindByIdAndUpdate(id: NoteId, u: NoteUpdate)
      requires Valid()
      modifies this
      ensures Valid()
      ensures notes == UpdateById(old(notes), id, u)
      ensures chunks == old(chunks) && usage == old(usage) && events == old(events) && nextId == old(nextId)
    {
      if id in notes {
        UpdateKeepsValid(notes[id], u);
      }
      notes := UpdateById(notes, id, u);
    }

    /** `NoteChunk.insertMany(batch)`: all of the batch when every record passes the field rules, else none. */
    method InsertMany(batch: seq<ChunkRecord>) returns (ok: bool)
      requires Valid()
      modifies this
      ensures Valid()
      ensures ok <==> forall i :: 0 <= i < |batch| ==> ValidChunk(batch[i])
      ensures chunks == if ok then old(chunks) + batch else old(chunks)
      ensures notes == old(notes) && usage == old(usage) && events == old(events) && nextId == old(nextId)
    {
      ok := forall i :: 0 <= i < |batch| ==> ValidChunk(batch[i]);
      if ok {
        chunks := chunks + batch;
      }
    }

    /** `AiUsage.create(record)`: appends the record when it passes the field rules. */
    method CreateUsage(record: UsageRecord) returns (ok: bool)
      requires Valid()
      modifies this
      ensures Valid()
      ensures ok <==> ValidUsage(record)
      ensures usage == if ok then old(usage) + [record] else old(usage)
      ensures notes == old(notes) && chunks == old(chunks) && events == old(events) && nextId == old(nextId)
    {
      ok := ValidUsage(record);
      if ok {
        usage := usage + [record];
      }
    }

    /** `inngest.send(event)`: queues the event. */
    method Send(event: PdfProcessRequested)
      requires Valid()
      modifies this
      ensures Valid()
      ensures events == old(events) + [event]
      ensures notes == old(notes) && chunks == old(chunks) && usage == old(usage) && nextId == old(nextId)
    {
      events := events + [event];
    }
  }
}

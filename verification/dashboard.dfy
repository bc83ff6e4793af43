/**
  `GET /api/dashboard`: the caller's notes, newest first. The database
  connection is made before the caller is identified; errors whose message
  points at the database connection give 503, all others 500.
*/
module Dashboard {
  import opened Wrappers
  import opened JsString
  import opened Records

  datatype Body =
    | Unauthorized
    | NoteList(data: seq<Note>)
    | DatabaseUnavailable(error: string, details: string)
    | ServerError(error: string)

  datatype Response = Response(status: int, body: Body)

  const DatabaseHelp: string :=
    "Database connection failed. Please check your MongoDB connection string and IP whitelist settings."

  // --------------------------------------------------------------- filter

  /** `Note.find({ userId })`: the notes of `userId`, in collection order. */
  function OwnedBy(notes: seq<Note>, userId: string): (r: seq<Note>)
    ensures forall i :: 0 <= i < |r| ==> r[i].userId == userId
    ensures forall n :: n in notes && n.userId == userId ==> multiset(r)[n] == multiset(notes)[n]
    ensures forall n :: n in notes && n.userId != userId ==> n !in r
    ensures multiset(r) <= multiset(notes)
  {
    if notes == [] then []
    else
      var rest := OwnedBy(notes[1..], userId);
      assert notes == [notes[0]] + notes[1..];
      if notes[0].userId == userId then [notes[0]] + rest else rest
  }

  // ----------------------------------------------------------------- sort

  /** Ordered by `createdAt`, newest first. */
  predicate NewestFirst(ns: seq<Note>) {
    forall i, j :: 0 <= i < j < |ns| ==> ns[i].createdAt >= ns[j].createdAt
  }

  /** Puts `n` in front of the first note that is not newer than it. */
  function InsertByDate(n: Note, ns: seq<Note>): (r: seq<Note>)
    requires NewestFirst(ns)
    ensures NewestFirst(r)
    ensures multiset(r) == multiset(ns) + multiset{n}
    ensures |r| == |ns| + 1
    ensures r[0] == n || (ns != [] && r[0] == ns[0])
  {
    if ns == [] || ns[0].createdAt <= n.createdAt then
      ConsNewestFirst(n, ns);
      [n] + ns
    else
      var rest := InsertByDate(n, ns[1..]);
      assert ns == [ns[0]] + ns[1..];
      ConsNewestFirst(ns[0], rest);
      [ns[0]] + rest
  }

  lemma ConsNewestFirst(x: Note, ns: seq<Note>)
    requires NewestFirst(ns)
    requires ns != [] ==> x.createdAt >= ns[0].createdAt
    ensures NewestFirst([x] + ns)
  {
    var r := [x] + ns;
    forall i, j | 0 <= i < j < |r|
      ensures r[i].createdAt >= r[j].createdAt
    {
      if i == 0 && j > 1 {
        assert ns[0].createdAt >= ns[j - 1].createdAt;
      }
    }
  }

  /** `.sort({ createdAt: -1 })`: the same notes, newest first. */
  function SortNewestFirst(ns: seq<Note>): (r: seq<Note>)
    ensures NewestFirst(r)
    ensures multiset(r) == multiset(ns)
  {
    if ns == [] then []
    else
      assert ns == [ns[0]] + ns[1..];
      InsertByDate(ns[0], SortNewestFirst(ns[1..]))
  }

  // --------------------------------------------------------------- errors

  /** The message names the database: "MongoDB", "Atlas" or "whitelist" occurs in it. */
  predicate NamesDatabase(message: string) {
    Includes(message, "MongoDB") || Includes(message, "Atlas") || Includes(message, "whitelist")
  }

  /** The catch block: 503 with the help text for database errors, else 500 with the message. */
  function ErrorResponse(message: string): (r: Response)
    ensures r.status == 503 <==> NamesDatabase(message)
    ensures r.status == 503 ==> r.body == DatabaseUnavailable(DatabaseHelp, message)
    ensures r.status != 503 ==> r == Response(500, ServerError(message))
  {
    if NamesDatabase(message) then Response(503, DatabaseUnavailable(DatabaseHelp, message))
    else Response(500, ServerError(message))
  }

  /** A connection error that mentions Atlas is reported as the database being unavailable. */
  lemma AtlasErrorIs503()
    ensures ErrorResponse("Could not connect to Atlas").status == 503
  {
    var m := "Could not connect to Atlas";
    assert OccursAt(m, "Atlas", 21) by { assert m[21..26] == "Atlas"; }
    assert IndexOfFrom(m, "Atlas", 0).Some?;
  }

  // ------------------------------------------------------------------ GET

  /**
    The handler. `connectError` is the outcome of connecting, `userId` what
    the auth provider reports, `notes` the collection and `findError` the
    outcome of the query.
  */
  function Get(connectError: Option<string>, userId: Option<string>, notes: seq<Note>, findError: Option<string>): (r: Response)
    ensures connectError.Some? ==> r == ErrorResponse(connectError.value)
    ensures connectError.None? && (userId.None? || userId.value == "") ==> r == Response(401, Unauthorized)
    ensures connectError.None? && userId.Some? && userId.value != "" && findError.Some? ==>
      r == ErrorResponse(findError.value)
    ensures r.status == 200 <==> connectError.None? && userId.Some? && userId.value != "" && findError.None?
    ensures r.status == 200 ==>
      && r.body.NoteList?
      && NewestFirst(r.body.data)
      && multiset(r.body.data) == multiset(OwnedBy(notes, userId.value))
  {
    if connectError.Some? then ErrorResponse(connectError.value)
    else if userId.None? || userId.value == "" then Response(401, Unauthorized)
    else if findError.Some? then ErrorResponse(findError.value)
    else Response(200, NoteList(SortNewestFirst(OwnedBy(notes, userId.value))))
  }

  /**
    A successful reply holds exactly the caller's notes: each of them as
    often as it is stored, and no note of anyone else.
  */
  lemma OnlyOwnNotes(userId: string, notes: seq<Note>, n: Note)
    requires userId != ""
    ensures
      var r := Get(None, Some(userId), notes, None);
      && (n.userId == userId ==> multiset(r.body.data)[n] == multiset(notes)[n])
      && (n.userId != userId ==> n !in r.body.data)
  {
    var owned := OwnedBy(notes, userId);
    var data := Get(None, Some(userId), notes, None).body.data;
    assert multiset(data) == multiset(owned);
    if n !in notes {
      assert multiset(owned)[n] <= multiset(notes)[n] == 0;
    } else if n.userId != userId {
      assert n !in owned;
    }
    assert n.userId != userId ==> multiset(owned)[n] == 0;
  }

  /** The connection comes first: an anonymous caller still gets a 5xx reply when it fails. */
  lemma ConnectionBeforeAuth(message: string, notes: seq<Note>, findError: Option<string>)
    ensures Get(Some(message), None, notes, findError).status in {500, 503}
  {
  }
}

/** The record store of one session (src/services/InterviewDatabaseService.ts):
    a class over the session's SQL storage whose methods run the statements of
    `SqlEngine` and rethrow every failure as a DATABASE_ERROR `InterviewError`.

    Each operation is specified by a function of the storage before the call;
    the functions carry the properties the store promises, and the methods are
    proved to do what those functions say. */
module Database {
  import opened Types
  import opened Errors
  import opened SqlEngine

  const CreateInterviewPrefix := "Failed to create interview: "
  const GetAllInterviewsPrefix := "Failed to get all interviews: "
  const GetInterviewPrefix := "Failed to get interview: "
  const AddMessagePrefix := "Failed to add message: "
  const InvalidRecordMessage := "Invalid interview data in database"

  /** A DATABASE_ERROR `InterviewError` whose message starts with `prefix`. */
  predicate IsDatabaseFailure(e: Error, prefix: string)
  {
    e.InterviewError? && e.code == CodeName(DatabaseError) && e.statusCode == 500
    && prefix <= e.message
  }

  // ---------------------------------------------------------------------------
  // Parsing stored records

  /** A stored record passes validation: a non-empty id and non-zero timestamps. */
  predicate ValidRecord(id: string, createdAt: int, updatedAt: int)
  {
    id != "" && createdAt != 0 && updatedAt != 0
  }

  /** The aggregated messages with the `null` elements dropped. */
  function PresentEntries(xs: seq<Option<TranscriptEntry>>): (r: seq<TranscriptEntry>)
    ensures forall e :: e in r <==> Some(e) in xs
    ensures forall e {:trigger multiset(r)[e]} :: multiset(r)[e] == multiset(xs)[Some(e)]
    ensures |r| <= |xs|
  {
    if xs == [] then []
    else
      assert xs == [xs[0]] + xs[1..];
      (if xs[0].Some? then [xs[0].value] else []) + PresentEntries(xs[1..])
  }

  /** Dropping `null`s from an array that has none gives back its entries. */
  lemma {:induction false} PresentEntriesOfSome(t: seq<TranscriptEntry>)
    ensures PresentEntries(seq(|t|, i requires 0 <= i < |t| => Some(t[i]))) == t
  {
    var xs := seq(|t|, i requires 0 <= i < |t| => Some(t[i]));
    if t != [] {
      var tail := seq(|t[1..]|, i requires 0 <= i < |t[1..]| => Some(t[1..][i]));
      assert xs[1..] == tail;
      PresentEntriesOfSome(t[1..]);
      assert t == [t[0]] + t[1..];
    }
  }

  /** `parseInterviewRecord`: rejects a record with an empty id or a zero
      timestamp; otherwise copies the columns and keeps the non-null
      aggregated messages (none when the record has no `messages` column). */
  function ParseInterviewRecord(rec: Record): (r: Result<InterviewData>)
    ensures r.Err? <==> !ValidRecord(rec.interviewId, rec.createdAt, rec.updatedAt)
    ensures r.Err? ==> r.error == NewInterviewError(InvalidRecordMessage, CodeName(DatabaseError), None)
    ensures r.Ok? ==> r.value == InterviewData(rec.interviewId, rec.title, rec.skills,
                                               r.value.messages, rec.status, rec.createdAt, rec.updatedAt)
    ensures r.Ok? ==> forall e :: e in r.value.messages <==> rec.messages.Some? && Some(e) in rec.messages.value
    ensures r.Ok? ==> forall e {:trigger multiset(r.value.messages)[e]} :: multiset(r.value.messages)[e]
                                  == if rec.messages.Some? then multiset(rec.messages.value)[Some(e)] else 0
  {
    if !ValidRecord(rec.interviewId, rec.createdAt, rec.updatedAt) then
      Err(NewInterviewError(InvalidRecordMessage, CodeName(DatabaseError), None))
    else
      Ok(InterviewData(
        rec.interviewId, rec.title, rec.skills,
        if rec.messages.Some? then PresentEntries(rec.messages.value) else [],
        rec.status, rec.createdAt, rec.updatedAt))
  }

  /** `[...cursor].map(parseInterviewRecord)`: every record parsed, in order;
      the first invalid record's error is thrown. */
  function ParseAll(recs: seq<Record>): (r: Result<seq<InterviewData>>)
    ensures r.Ok? <==> forall i :: 0 <= i < |recs| ==> ParseInterviewRecord(recs[i]).Ok?
    ensures r.Ok? ==> |r.value| == |recs|
    ensures r.Ok? ==> forall i :: 0 <= i < |recs| ==> r.value[i] == ParseInterviewRecord(recs[i]).value
    ensures r.Err? ==> r.error == NewInterviewError(InvalidRecordMessage, CodeName(DatabaseError), None)
  {
    if recs == [] then Ok([])
    else
      match ParseInterviewRecord(recs[0])
      case Err(e) => Err(e)
      case Ok(d) =>
        match ParseAll(recs[1..])
        case Err(e) => Err(e)
        case Ok(ds) =>
          assert forall i :: 1 <= i < |recs| ==> recs[i] == recs[1..][i - 1];
          Ok([d] + ds)
  }

  // ---------------------------------------------------------------------------
  // Queries

  /** An interview as the list query returns it: the row's columns, no messages. */
  function Summary(row: InterviewRow): InterviewData
  {
    InterviewData(row.interviewId, row.title, row.skills, [], row.status, row.createdAt, row.updatedAt)
  }

  /** `getAllInterviews` on storage `s`. */
  function AllInterviews(s: SqlStorage): (r: Result<seq<InterviewData>>)
    ensures s.interviews.None? ==> r.Err?
    ensures r.Err? ==> IsDatabaseFailure(r.error, GetAllInterviewsPrefix)
    ensures r.Ok? ==> s.interviews.Some? && |r.value| == |s.interviews.value|
  {
    match SelectAllInterviews(s)
    case Failed(e) => Err(DatabaseFailure(GetAllInterviewsPrefix, ErrorMessage(e)))
    case Done(recs) =>
      match ParseAll(recs)
      case Ok(ds) => Ok(ds)
      case Err(e) => Err(DatabaseFailure(GetAllInterviewsPrefix, e.message))
  }

  /** Parsing the list records succeeds exactly when every row is valid, and
      then gives each row's summary in the same order. */
  lemma ParseListRecords(rows: seq<InterviewRow>)
    ensures ParseAll(ListRecords(rows)).Ok?
            <==> forall i :: 0 <= i < |rows| ==> ValidRecord(rows[i].interviewId, rows[i].createdAt, rows[i].updatedAt)
    ensures ParseAll(ListRecords(rows)).Ok? ==>
            var list := ParseAll(ListRecords(rows)).value;
            |list| == |rows| && forall i :: 0 <= i < |rows| ==> list[i] == Summary(rows[i])
  {
    var recs := ListRecords(rows);
    assert forall i :: 0 <= i < |rows| ==> recs[i] == ToRecord(rows[i], None);
  }

  /** The list holds one summary per stored interview, newest first, none with
      messages. It fails exactly when some stored row is invalid, with the
      parse error rewrapped under the list prefix. */
  lemma AllInterviewsSpec(s: SqlStorage)
    requires s.interviews.Some?
    ensures var rows := s.interviews.value;
      AllInterviews(s).Ok? <==> forall row :: row in rows ==> ValidRecord(row.interviewId, row.createdAt, row.updatedAt)
    ensures AllInterviews(s).Err? ==>
      AllInterviews(s).error == DatabaseFailure(GetAllInterviewsPrefix, InvalidRecordMessage)
    ensures AllInterviews(s).Ok? ==>
      var rows, list := s.interviews.value, AllInterviews(s).value;
      && |list| == |rows|
      && (forall row :: row in rows ==> Summary(row) in list)
      && (forall d :: d in list ==> exists row :: row in rows && d == Summary(row))
      && (forall i, j :: 0 <= i < j < |list| ==> list[i].createdAt >= list[j].createdAt)
      && (forall d :: d in list ==> d.messages == [])
  {
    var rows := s.interviews.value;
    var sorted := SortByCreatedDesc(rows);
    assert SelectAllInterviews(s) == Done(ListRecords(sorted));
    SameMembers(sorted, rows);
    ParseListRecords(sorted);
    var parsed := ParseAll(ListRecords(sorted));
    assert parsed.Ok? <==> forall row :: row in rows ==> ValidRecord(row.interviewId, row.createdAt, row.updatedAt) by {
      if parsed.Ok? {
        forall row | row in rows ensures ValidRecord(row.interviewId, row.createdAt, row.updatedAt) {
          var i :| 0 <= i < |sorted| && sorted[i] == row;
        }
      }
    }
    if parsed.Ok? {
      SummaryMembers(sorted, rows, parsed.value);
    }
  }

  /** A list of summaries of `sorted`, position by position, holds exactly
      the summaries of the rows `sorted` has as members. */
  lemma SummaryMembers(sorted: seq<InterviewRow>, rows: seq<InterviewRow>, list: seq<InterviewData>)
    requires forall x :: x in sorted <==> x in rows
    requires |list| == |sorted| && forall i :: 0 <= i < |sorted| ==> list[i] == Summary(sorted[i])
    ensures forall row :: row in rows ==> Summary(row) in list
    ensures forall d :: d in list ==> exists row :: row in rows && d == Summary(row)
  {
    forall row | row in rows ensures Summary(row) in list {
      var i :| 0 <= i < |sorted| && sorted[i] == row;
      assert list[i] == Summary(row);
    }
    forall d | d in list ensures exists row :: row in rows && d == Summary(row) {
      var i :| 0 <= i < |list| && list[i] == d;
      assert sorted[i] in rows;
    }
  }

  /** Sequences with equal multisets have the same members. */
  lemma SameMembers(a: seq<InterviewRow>, b: seq<InterviewRow>)
    requires multiset(a) == multiset(b)
    ensures forall x :: x in a <==> x in b
  {
    forall x ensures x in a <==> x in b {
      assert x in a <==> x in multiset(a);
      assert x in b <==> x in multiset(b);
    }
  }

  /** `getInterview(id)` on storage `s`: `None` plays the part of `null`. */
  function InterviewById(s: SqlStorage, id: string): (r: Result<Option<InterviewData>>)
    ensures s.interviews.None? || s.messages.None? ==> r.Err?
    ensures r.Err? ==> IsDatabaseFailure(r.error, GetInterviewPrefix)
    ensures r.Ok? && r.value.Some? ==> r.value.value.interviewId == id && HasInterview(s.interviews.value, id)
  {
    match SelectInterview(s, id)
    case Failed(e) => Err(DatabaseFailure(GetInterviewPrefix, ErrorMessage(e)))
    case Done(recs) =>
      if recs == [] then Ok(None)
      else
        match ParseInterviewRecord(recs[0])
        case Ok(d) => Ok(Some(d))
        case Err(e) => Err(DatabaseFailure(GetInterviewPrefix, e.message))
  }

  /** Entries with pairwise distinct message ids: no message appears twice. */
  predicate DistinctMessageIds(t: seq<TranscriptEntry>)
  {
    forall i, j :: 0 <= i < j < |t| ==> t[i].messageId != t[j].messageId
  }

  /** With unique message keys, a transcript holds every message at most once. */
  lemma {:induction false} TranscriptOfDistinct(ms: seq<Message>, id: string)
    requires UniqueMessageIds(ms)
    ensures DistinctMessageIds(TranscriptOf(ms, id))
  {
    if ms != [] {
      assert ms == [ms[0]] + ms[1..];
      var rest := TranscriptOf(ms[1..], id);
      assert UniqueMessageIds(ms[1..]) by {
        forall i, j | 0 <= i < j < |ms[1..]| ensures ms[1..][i].messageId != ms[1..][j].messageId {
          assert ms[1..][i] == ms[i + 1] && ms[1..][j] == ms[j + 1];
        }
      }
      TranscriptOfDistinct(ms[1..], id);
      forall e | e in rest ensures e.messageId != ms[0].messageId {
        var m :| m in ms[1..] && m.interviewId == id && Project(m) == e;
        var k :| 0 <= k < |ms[1..]| && ms[1..][k] == m;
        assert ms[k + 1] == m;
      }
      var head := if ms[0].interviewId == id then [Project(ms[0])] else [];
      assert TranscriptOf(ms, id) == head + rest;
      forall i, j | 0 <= i < j < |head + rest|
        ensures (head + rest)[i].messageId != (head + rest)[j].messageId
      {
        if i < |head| {
          assert (head + rest)[j] == rest[j - |head|];
          assert rest[j - |head|] in rest;
        } else {
          assert (head + rest)[i] == rest[i - |head|] && (head + rest)[j] == rest[j - |head|];
        }
      }
    }
  }

  /** `getInterview(id)` is `null` exactly when no interview has that id. A
      found interview carries its row's columns and, as a collection, exactly
      the stored messages of that interview, each once and without its
      `interviewId`; with no such message the transcript is empty. It fails
      exactly when the row is invalid, with the parse error rewrapped. */
  lemma InterviewByIdSpec(s: SqlStorage, id: string)
    requires WellFormed(s) && s.interviews.Some? && s.messages.Some?
    ensures var r := InterviewById(s, id);
      r == Ok(None) <==> !HasInterview(s.interviews.value, id)
    ensures var r := InterviewById(s, id);
      r.Err? <==> exists row :: row in s.interviews.value && row.interviewId == id
                                && !ValidRecord(row.interviewId, row.createdAt, row.updatedAt)
    ensures var r := InterviewById(s, id);
      r.Err? ==> r.error == DatabaseFailure(GetInterviewPrefix, InvalidRecordMessage)
    ensures var r, rows, ms := InterviewById(s, id), s.interviews.value, s.messages.value;
      r.Ok? && r.value.Some? ==>
        var d := r.value.value;
        && d.interviewId == id
        && (exists row :: row in rows && d == Summary(row).(messages := d.messages))
        && (forall e :: e in d.messages <==> exists m :: m in ms && m.interviewId == id && Project(m) == e)
        && DistinctMessageIds(d.messages)
        && ((forall m :: m in ms ==> m.interviewId != id) ==> d.messages == [])
  {
    var rows, ms := s.interviews.value, s.messages.value;
    var found := RowsWithId(rows, id);
    var t := TranscriptOf(ms, id);
    var agg := GroupArray(ms, id);
    var recs := seq(|found|, i requires 0 <= i < |found| => ToRecord(found[i], Some(agg)));
    assert SelectInterview(s, id) == Done(recs);
    if found != [] {
      assert found[0] in found;
      assert forall row :: row in rows && row.interviewId == id ==> row == found[0] by {
        forall row | row in rows && row.interviewId == id ensures row == found[0] {
          assert row in found;
          assert |found| == 1;
        }
      }
      TranscriptOfDistinct(ms, id);
      if t == [] {
        assert agg == [None];
        assert PresentEntries(agg) == [] by {
          assert PresentEntries(agg) == [] + PresentEntries(agg[1..]);
        }
      } else {
        PresentEntriesOfSome(t);
      }
      assert PresentEntries(agg) == t;
    } else {
      assert !HasInterview(rows, id);
    }
  }

  // ---------------------------------------------------------------------------
  // Writes

  /** The answer of a write together with the storage after it. */
  datatype Transition<+T> = Transition(result: Result<T>, after: SqlStorage)

  /** `createInterview(title, skills)` with `interviewId` standing for
      `crypto.randomUUID()` and `now` for `Date.now()`: on success exactly one
      `created` row with equal timestamps is appended and its id returned;
      otherwise nothing changes and a DATABASE_ERROR is thrown. */
  function CreateInterviewTransition(s: SqlStorage, title: string, skills: seq<string>,
                                     interviewId: string, now: int): (t: Transition<string>)
    ensures t.result.Ok? <==> s.interviews.Some? && !HasInterview(s.interviews.value, interviewId)
    ensures t.result.Ok? ==>
              && t.result.value == interviewId
              && t.after == s.(interviews := Some(s.interviews.value
                                 + [InterviewRow(interviewId, title, skills, StatusName(Created), now, now)]))
    ensures t.result.Err? ==> t.after == s && IsDatabaseFailure(t.result.error, CreateInterviewPrefix)
    ensures WellFormed(s) ==> WellFormed(t.after)
  {
    var row := InterviewRow(interviewId, title, skills, StatusName(Created), now, now);
    match InsertInterview(s, row)
    case Failed(e) => Transition(Err(DatabaseFailure(CreateInterviewPrefix, ErrorMessage(e))), s)
    case Done(s') => Transition(Ok(interviewId), s')
  }

  /** `addMessage(interviewId, role, content, messageId)` with `now` standing
      for `Date.now()`: on success exactly one message row is appended and the
      returned message is that row; the interview need not exist. Otherwise
      nothing changes and a DATABASE_ERROR is thrown. */
  function AddMessageTransition(s: SqlStorage, interviewId: string, role: Role, content: string,
                                messageId: string, now: int): (t: Transition<Message>)
    ensures t.result.Ok? <==> s.messages.Some? && !HasMessage(s.messages.value, messageId)
    ensures t.result.Ok? ==>
              && t.result.value == Message(messageId, interviewId, role, content, now)
              && t.after == s.(messages := Some(s.messages.value + [t.result.value]))
    ensures t.result.Err? ==> t.after == s && IsDatabaseFailure(t.result.error, AddMessagePrefix)
    ensures WellFormed(s) ==> WellFormed(t.after)
  {
    var m := Message(messageId, interviewId, role, content, now);
    match InsertMessage(s, m)
    case Failed(e) => Transition(Err(DatabaseFailure(AddMessagePrefix, ErrorMessage(e))), s)
    case Done(s') => Transition(Ok(m), s')
  }

  // ---------------------------------------------------------------------------
  // The service

  class InterviewDatabaseService {
    /** The session's SQL storage. */
    var sql: SqlStorage

    ghost predicate Valid()
      reads this
    {
      WellFormed(sql)
    }

    constructor(storage: SqlStorage)
      requires WellFormed(storage)
      ensures Valid() && sql == storage
    {
      sql := storage;
    }

    /** `createTables`: creates each missing table, then the index. Existing
        tables and their rows are left as they are. */
    method CreateTables()
      requires Valid()
      modifies this
      ensures Valid()
      ensures sql == WithTables(old(sql))
    {
      var existing := TableNames(sql);
      if InterviewsTable !in existing {
        sql := CreateInterviewsTable(sql);
      }
      if MessagesTable !in existing {
        sql := CreateMessagesTable(sql);
      }
      match CreateMessagesIndex(sql)
      case Done(s) =>
        sql := s;
      case Failed(_) =>
        // the messages table exists by now, so the index statement succeeds
        assert false;
    }

    method CreateInterview(title: string, skills: seq<string>, interviewId: string, now: int)
      returns (r: Result<string>)
      requires Valid()
      modifies this
      ensures Valid()
      ensures Transition(r, sql) == CreateInterviewTransition(old(sql), title, skills, interviewId, now)
    {
      var row := InterviewRow(interviewId, title, skills, StatusName(Created), now, now);
      match InsertInterview(sql, row)
      case Failed(e) =>
        r := Err(DatabaseFailure(CreateInterviewPrefix, ErrorMessage(e)));
      case Done(s) =>
        sql := s;
        r := Ok(interviewId);
    }

    method GetAllInterviews() returns (r: Result<seq<InterviewData>>)
      ensures r == AllInterviews(sql)
    {
      r := AllInterviews(sql);
    }

    method GetInterview(interviewId: string) returns (r: Result<Option<InterviewData>>)
      ensures r == InterviewById(sql, interviewId)
    {
      r := InterviewById(sql, interviewId);
    }

    method AddMessage(interviewId: string, role: Role, content: string, messageId: string, now: int)
      returns (r: Result<Message>)
      requires Valid()
      modifies this
      ensures Valid()
      ensures Transition(r, sql) == AddMessageTransition(old(sql), interviewId, role, content, messageId, now)
    {
      var m := Message(messageId, interviewId, role, content, now);
      match InsertMessage(sql, m)
      case Failed(e) =>
        r := Err(DatabaseFailure(AddMessagePrefix, ErrorMessage(e)));
      case Done(s) =>
        sql := s;
        r := Ok(m);
    }
  }
}

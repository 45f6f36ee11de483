/** The session's SQL storage, abstractly, and the meaning of the statements
    the record store sends to it (the QUERIES of
    src/services/InterviewDatabaseService.ts).

    A table is either absent or a sequence of rows; a primary key is a
    uniqueness constraint on that sequence. Insertion order is kept, but no
    query below promises more order than its SQL text does. */
module SqlEngine {
  import opened Types

  const InterviewsTable := "interviews"
  const MessagesTable := "messages"

  /** A row of `interviews`. `skills` is the list that was serialized to JSON
      text; parsing that text back gives the same list. */
  datatype InterviewRow = InterviewRow(
    interviewId: string,
    title: string,
    skills: seq<string>,
    status: string,
    createdAt: int,
    updatedAt: int)

  /** The storage: each table is absent (`None`) or holds its rows, and the
      index on `messages.interviewId` exists or not. A row of `messages` is a
      `Message`. */
  datatype SqlStorage = SqlStorage(
    interviews: Option<seq<InterviewRow>>,
    messages: Option<seq<Message>>,
    messagesIndex: bool)

  datatype SqlError = NoSuchTable(table: string) | UniqueConstraintFailed(table: string, column: string)

  /** The engine's error text (SQLite's wording). */
  function ErrorMessage(e: SqlError): string
  {
    match e
    case NoSuchTable(t) => "no such table: " + t
    case UniqueConstraintFailed(t, c) => "UNIQUE constraint failed: " + t + "." + c
  }

  /** The outcome of one statement: its value, or the error it raises. */
  datatype Exec<+T> = Done(value: T) | Failed(error: SqlError)

  // ---------------------------------------------------------------------------
  // Keys and well-formedness

  predicate HasInterview(rows: seq<InterviewRow>, id: string)
  {
    exists row :: row in rows && row.interviewId == id
  }

  predicate HasMessage(ms: seq<Message>, id: string)
  {
    exists m :: m in ms && m.messageId == id
  }

  predicate UniqueInterviewIds(rows: seq<InterviewRow>)
  {
    forall i, j :: 0 <= i < j < |rows| ==> rows[i].interviewId != rows[j].interviewId
  }

  predicate UniqueMessageIds(ms: seq<Message>)
  {
    forall i, j :: 0 <= i < j < |ms| ==> ms[i].messageId != ms[j].messageId
  }

  /** Primary keys are unique, and the index exists only on an existing table. */
  predicate WellFormed(s: SqlStorage)
  {
    && (s.interviews.Some? ==> UniqueInterviewIds(s.interviews.value))
    && (s.messages.Some? ==> UniqueMessageIds(s.messages.value))
    && (s.messagesIndex ==> s.messages.Some?)
  }

  /** Both tables and the index exist. */
  predicate TablesReady(s: SqlStorage)
  {
    s.interviews.Some? && s.messages.Some? && s.messagesIndex
  }

  // ---------------------------------------------------------------------------
  // Schema statements

  /** `PRAGMA table_list`, reduced to the names of the tables. */
  function TableNames(s: SqlStorage): (names: set<string>)
    ensures InterviewsTable in names <==> s.interviews.Some?
    ensures MessagesTable in names <==> s.messages.Some?
  {
    (if s.interviews.Some? then {InterviewsTable} else {})
      + (if s.messages.Some? then {MessagesTable} else {})
  }

  /** `CREATE TABLE IF NOT EXISTS interviews (...)`. */
  function CreateInterviewsTable(s: SqlStorage): (t: SqlStorage)
    ensures t.interviews.Some? && t.messages == s.messages && t.messagesIndex == s.messagesIndex
    ensures s.interviews.Some? ==> t == s
    ensures s.interviews.None? ==> t.interviews == Some([])
  {
    if s.interviews.Some? then s else s.(interviews := Some([]))
  }

  /** `CREATE TABLE IF NOT EXISTS messages (...)`. */
  function CreateMessagesTable(s: SqlStorage): (t: SqlStorage)
    ensures t.messages.Some? && t.interviews == s.interviews && t.messagesIndex == s.messagesIndex
    ensures s.messages.Some? ==> t == s
    ensures s.messages.None? ==> t.messages == Some([])
  {
    if s.messages.Some? then s else s.(messages := Some([]))
  }

  /** `CREATE INDEX IF NOT EXISTS idx_messages_interviewId ON messages(interviewId)`:
      fails only when there is no `messages` table. */
  function CreateMessagesIndex(s: SqlStorage): (r: Exec<SqlStorage>)
    ensures r.Failed? <==> s.messages.None?
    ensures r.Done? ==> r.value == s.(messagesIndex := true)
  {
    if s.messages.None? then Failed(NoSuchTable(MessagesTable))
    else Done(s.(messagesIndex := true))
  }

  /** The storage once both tables and the index are known to exist: a table
      that was already there keeps its rows, a missing one is empty. */
  function WithTables(s: SqlStorage): (t: SqlStorage)
    ensures TablesReady(t)
    ensures WellFormed(s) ==> WellFormed(t)
    ensures s.interviews.None? ==> t.interviews == Some([])
    ensures s.messages.None? ==> t.messages == Some([])
  {
    SqlStorage(
      Some(if s.interviews.Some? then s.interviews.value else []),
      Some(if s.messages.Some? then s.messages.value else []),
      true)
  }

  /** Ensuring the schema a second time changes nothing, and rows that existed
      before are kept. */
  lemma WithTablesIdempotent(s: SqlStorage)
    ensures WithTables(WithTables(s)) == WithTables(s)
    ensures s.interviews.Some? ==> WithTables(s).interviews == s.interviews
    ensures s.messages.Some? ==> WithTables(s).messages == s.messages
    ensures TablesReady(s) ==> WithTables(s) == s
  {
  }

  // ---------------------------------------------------------------------------
  // Inserts

  /** `INSERT INTO interviews ...`: appends the row unless the table is missing
      or the primary key is taken. */
  function InsertInterview(s: SqlStorage, row: InterviewRow): (r: Exec<SqlStorage>)
    ensures r.Done? <==> s.interviews.Some? && !HasInterview(s.interviews.value, row.interviewId)
    ensures r.Done? ==> r.value == s.(interviews := Some(s.interviews.value + [row]))
    ensures r.Done? && WellFormed(s) ==> WellFormed(r.value)
  {
    if s.interviews.None? then Failed(NoSuchTable(InterviewsTable))
    else if HasInterview(s.interviews.value, row.interviewId) then
      Failed(UniqueConstraintFailed(InterviewsTable, "interviewId"))
    else Done(s.(interviews := Some(s.interviews.value + [row])))
  }

  /** `INSERT INTO messages ...`: appends the row unless the table is missing
      or the primary key is taken. The foreign key names a table that does
      not exist and is not enforced: the interview need not exist. */
  function InsertMessage(s: SqlStorage, m: Message): (r: Exec<SqlStorage>)
    ensures r.Done? <==> s.messages.Some? && !HasMessage(s.messages.value, m.messageId)
    ensures r.Done? ==> r.value == s.(messages := Some(s.messages.value + [m]))
    ensures r.Done? && WellFormed(s) ==> WellFormed(r.value)
  {
    if s.messages.None? then Failed(NoSuchTable(MessagesTable))
    else if HasMessage(s.messages.value, m.messageId) then
      Failed(UniqueConstraintFailed(MessagesTable, "messageId"))
    else Done(s.(messages := Some(s.messages.value + [m])))
  }

  // ---------------------------------------------------------------------------
  // Selects

  /** A result row of a select. `messages` is absent for the list query; for
      the single-interview query it is the aggregated JSON array, whose
      elements are `null` where the LEFT JOIN found no message. */
  datatype Record = Record(
    interviewId: string,
    title: string,
    skills: seq<string>,
    status: string,
    createdAt: int,
    updatedAt: int,
    messages: Option<seq<Option<TranscriptEntry>>>)

  function ToRecord(row: InterviewRow, messages: Option<seq<Option<TranscriptEntry>>>): Record
  {
    Record(row.interviewId, row.title, row.skills, row.status, row.createdAt, row.updatedAt, messages)
  }

  predicate SortedByCreatedDesc(rows: seq<InterviewRow>)
  {
    forall i, j :: 0 <= i < j < |rows| ==> rows[i].createdAt >= rows[j].createdAt
  }

  /** Places `row` into rows already ordered newest first. */
  function InsertByCreatedDesc(row: InterviewRow, rows: seq<InterviewRow>): (r: seq<InterviewRow>)
    requires SortedByCreatedDesc(rows)
    ensures SortedByCreatedDesc(r)
    ensures multiset(r) == multiset(rows) + multiset{row}
    ensures |r| == |rows| + 1 && (r[0] == row || (rows != [] && r[0] == rows[0]))
  {
    if rows == [] || row.createdAt >= rows[0].createdAt then [row] + rows
    else
      assert rows == [rows[0]] + rows[1..];
      [rows[0]] + InsertByCreatedDesc(row, rows[1..])
  }

  /** `ORDER BY createdAt DESC`: a reordering of the rows, newest first. SQL
      leaves the order of equal timestamps open; this one is a valid choice. */
  function SortByCreatedDesc(rows: seq<InterviewRow>): (r: seq<InterviewRow>)
    ensures SortedByCreatedDesc(r)
    ensures multiset(r) == multiset(rows) && |r| == |rows|
  {
    if rows == [] then []
    else
      assert rows == [rows[0]] + rows[1..];
      InsertByCreatedDesc(rows[0], SortByCreatedDesc(rows[1..]))
  }

  /** `SELECT interviewId, title, skills, status, createdAt, updatedAt
      FROM interviews ORDER BY createdAt DESC`. */
  function SelectAllInterviews(s: SqlStorage): (r: Exec<seq<Record>>)
    ensures r.Failed? <==> s.interviews.None?
  {
    if s.interviews.None? then Failed(NoSuchTable(InterviewsTable))
    else
      Done(ListRecords(SortByCreatedDesc(s.interviews.value)))
  }

  /** The records the list query yields for `rows`, in the same order and
      without a `messages` column. */
  function ListRecords(rows: seq<InterviewRow>): seq<Record>
  {
    seq(|rows|, i requires 0 <= i < |rows| => ToRecord(rows[i], None))
  }

  /** The message rows of one interview, in table order, projected to the four
      fields that `json_object` puts in the aggregate. */
  function TranscriptOf(ms: seq<Message>, id: string): (r: seq<TranscriptEntry>)
    ensures forall e :: e in r <==> exists m :: m in ms && m.interviewId == id && Project(m) == e
    ensures |r| <= |ms|
  {
    if ms == [] then []
    else
      assert ms == [ms[0]] + ms[1..];
      (if ms[0].interviewId == id then [Project(ms[0])] else []) + TranscriptOf(ms[1..], id)
  }

  function Project(m: Message): TranscriptEntry
  {
    TranscriptEntry(m.messageId, m.role, m.content, m.timestamp)
  }

  /** `json_group_array(CASE WHEN m.messageId IS NOT NULL THEN json_object(...) END)`
      over the LEFT JOIN: one element per matching message, or a single `null`
      when the join found none. */
  function GroupArray(ms: seq<Message>, id: string): (r: seq<Option<TranscriptEntry>>)
    ensures r == [None] <==> TranscriptOf(ms, id) == []
    ensures TranscriptOf(ms, id) != [] ==> None !in r
    ensures TranscriptOf(ms, id) != [] ==>
              && |r| == |TranscriptOf(ms, id)|
              && forall i :: 0 <= i < |r| ==> r[i] == Some(TranscriptOf(ms, id)[i])
    ensures forall e :: Some(e) in r <==> e in TranscriptOf(ms, id)
  {
    var t := TranscriptOf(ms, id);
    if t == [] then [None]
    else
      var r := seq(|t|, i requires 0 <= i < |t| => Some(t[i]));
      assert r[0] == Some(t[0]) && |r| == |t|;
      assert forall e :: e in t ==> Some(e) in r by {
        forall e | e in t ensures Some(e) in r {
          var i :| 0 <= i < |t| && t[i] == e;
          assert r[i] == Some(e);
        }
      }
      r
  }

  /** `SELECT ... FROM interviews i LEFT JOIN messages m ON i.interviewId = m.interviewId
      WHERE i.interviewId = ? GROUP BY i.interviewId`: one record per interview
      row with that id, carrying the aggregated messages. */
  function SelectInterview(s: SqlStorage, id: string): (r: Exec<seq<Record>>)
    ensures r.Failed? <==> s.interviews.None? || s.messages.None?
  {
    if s.interviews.None? then Failed(NoSuchTable(InterviewsTable))
    else if s.messages.None? then Failed(NoSuchTable(MessagesTable))
    else
      var rows := RowsWithId(s.interviews.value, id);
      var agg := GroupArray(s.messages.value, id);
      Done(seq(|rows|, i requires 0 <= i < |rows| => ToRecord(rows[i], Some(agg))))
  }

  /** The rows whose primary key is `id`: none or, with unique keys, one. */
  function RowsWithId(rows: seq<InterviewRow>, id: string): (r: seq<InterviewRow>)
    ensures forall row :: row in r <==> row in rows && row.interviewId == id
    ensures !HasInterview(rows, id) ==> r == []
    ensures UniqueInterviewIds(rows) ==> |r| <= 1
  {
    if rows == [] then []
    else
      assert rows == [rows[0]] + rows[1..];
      var rest := RowsWithId(rows[1..], id);
      if rows[0].interviewId == id then
        assert UniqueInterviewIds(rows) ==> rest == [] by {
          if UniqueInterviewIds(rows) {
            assert forall k :: 1 <= k < |rows| ==> rows[k].interviewId != id;
            assert forall row :: row in rows[1..] ==> row.interviewId != id;
            assert !HasInterview(rows[1..], id);
          }
        }
        [rows[0]] + rest
      else rest
  }
}

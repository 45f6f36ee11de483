/** A worked use of the session (src/interview.ts with the record store):
    one interview, two messages, two open viewers, a closed one, and an open
    one whose `send` throws. */
module Scenario {
  import opened Types
  import opened Errors
  import opened SqlEngine
  import opened Database
  import opened Session

  /** Starting from empty storage, create an interview and append "hello"
      then "hi" to it. Both healthy viewers receive the two frames in that
      order; the closed viewer and the one whose `send` throws receive nothing
      and do not disturb the others; reading the interview back gives exactly
      the two messages. */
  method Conversation(uuid: string, t0: int, t1: int, t2: int)
    returns (viewers: seq<Socket>, read: Result<Option<InterviewData>>)
    requires uuid != "" && t0 != 0
    ensures |viewers| == 4
    ensures viewers[0].received == viewers[1].received
            == [Envelope(Message("m1", uuid, User, "hello", t1)),
                Envelope(Message("m2", uuid, Assistant, "hi", t2))]
    ensures viewers[2].received == [] && viewers[3].received == []
    ensures read.Ok? && read.value.Some?
    ensures var d := read.value.value;
            && d.interviewId == uuid && d.status == "created"
            && d.title == "Junior Developer Interview" && d.skills == ["JavaScript"]
            && multiset(d.messages)
               == multiset{TranscriptEntry("m1", User, "hello", t1), TranscriptEntry("m2", Assistant, "hi", t2)}
  {
    var row := InterviewRow(uuid, "Junior Developer Interview", ["JavaScript"], "created", t0, t0);
    var a, b := Message("m1", uuid, User, "hello", t1), Message("m2", uuid, Assistant, "hi", t2);
    var session := new Interview(SqlStorage(None, None, false),
                                 Viewers());
    StoreSteps(uuid, t0, t1, t2);
    var id := session.CreateInterview(TitleName(JuniorDeveloper), [SkillName(JavaScript)], uuid, t0);
    var m1 := session.AddMessage(uuid, User, "hello", "m1", t1);
    var m2 := session.AddMessage(uuid, Assistant, "hi", "m2", t2);
    ViewerSteps(Envelope(a), Envelope(b));
    viewers := session.sockets;
    read := session.db.GetInterview(uuid);
    ReadBack(uuid, t0, t1, t2);
  }

  /** The three writes of the conversation: the interview is created under
      `uuid`, then each message is appended behind the previous one. */
  lemma StoreSteps(uuid: string, t0: int, t1: int, t2: int)
    ensures var row := InterviewRow(uuid, "Junior Developer Interview", ["JavaScript"], "created", t0, t0);
            var a, b := Message("m1", uuid, User, "hello", t1), Message("m2", uuid, Assistant, "hi", t2);
            && WithTables(SqlStorage(None, None, false)) == SqlStorage(Some([]), Some([]), true)
            && CreateInterviewTransition(SqlStorage(Some([]), Some([]), true),
                 TitleName(JuniorDeveloper), [SkillName(JavaScript)], uuid, t0)
               == Transition(Ok(uuid), SqlStorage(Some([row]), Some([]), true))
            && AddMessageTransition(SqlStorage(Some([row]), Some([]), true), uuid, User, "hello", "m1", t1)
               == Transition(Ok(a), SqlStorage(Some([row]), Some([a]), true))
            && AddMessageTransition(SqlStorage(Some([row]), Some([a]), true), uuid, Assistant, "hi", "m2", t2)
               == Transition(Ok(b), SqlStorage(Some([row]), Some([a, b]), true))
  {
    var row := InterviewRow(uuid, "Junior Developer Interview", ["JavaScript"], "created", t0, t0);
    var a, b := Message("m1", uuid, User, "hello", t1), Message("m2", uuid, Assistant, "hi", t2);
    assert StatusName(Created) == "created";
    assert [] + [row] == [row];
    assert [] + [a] == [a];
    assert !HasMessage([a], "m2");
    assert [a] + [b] == [a, b];
  }

  /** The connected viewers: two healthy ones, a closed one, and an open one
      whose `send` throws. */
  function Viewers(): seq<Socket>
  {
    [Socket(Open, false, []), Socket(Open, false, []), Socket(Closed, false, []), Socket(Open, true, [])]
  }

  /** Two broadcasts reach the two healthy viewers in order; the closed viewer
      is skipped and the throw from the last viewer is swallowed. */
  lemma ViewerSteps(e1: Payload, e2: Payload)
    ensures var v := Broadcasted(Broadcasted(Viewers(), e1), e2);
            && |v| == 4
            && v[0].received == v[1].received == [e1, e2]
            && v[2].received == [] && v[3].received == []
  {
    var once := Broadcasted(Viewers(), e1);
    assert [] + [e1] == [e1] && [e1] + [e2] == [e1, e2];
    assert once == [Socket(Open, false, [e1]), Socket(Open, false, [e1]),
                    Socket(Closed, false, []), Socket(Open, true, [])];
  }

  /** Reading back an interview row with its two messages gives the row's
      columns and both messages, each once; no order is promised. */
  lemma ReadBack(uuid: string, t0: int, t1: int, t2: int)
    requires uuid != "" && t0 != 0
    ensures var row := InterviewRow(uuid, "Junior Developer Interview", ["JavaScript"], "created", t0, t0);
            var a, b := Message("m1", uuid, User, "hello", t1), Message("m2", uuid, Assistant, "hi", t2);
            var r := InterviewById(SqlStorage(Some([row]), Some([a, b]), true), uuid);
            && r.Ok? && r.value.Some?
            && r.value.value.interviewId == uuid && r.value.value.title == "Junior Developer Interview"
            && r.value.value.skills == ["JavaScript"] && r.value.value.status == "created"
            && r.value.value.createdAt == t0 && r.value.value.updatedAt == t0
            && multiset(r.value.value.messages)
               == multiset{TranscriptEntry("m1", User, "hello", t1), TranscriptEntry("m2", Assistant, "hi", t2)}
  {
    var row := InterviewRow(uuid, "Junior Developer Interview", ["JavaScript"], "created", t0, t0);
    var a, b := Message("m1", uuid, User, "hello", t1), Message("m2", uuid, Assistant, "hi", t2);
    var s := SqlStorage(Some([row]), Some([a, b]), true);
    var rec := ToRecord(row, Some([Some(Project(a)), Some(Project(b))]));
    SelectTwoMessages(row, a, b);
    PresentTwo(Project(a), Project(b));
    var d := InterviewData(uuid, row.title, row.skills, [Project(a), Project(b)], row.status, t0, t0);
    assert ParseInterviewRecord(rec) == Ok(d);
    assert InterviewById(s, uuid) == Ok(Some(d));
  }

  /** Dropping `null`s from two non-null elements keeps both, in order. */
  lemma PresentTwo(x: TranscriptEntry, y: TranscriptEntry)
    ensures PresentEntries([Some(x), Some(y)]) == [x, y]
  {
    var xs := [Some(x), Some(y)];
    assert xs[1..] == [Some(y)] && xs[1..][1..] == [];
    assert PresentEntries(xs[1..]) == [y] + PresentEntries(xs[1..][1..]);
  }

  /** The join over one interview row and two of its messages selects that row
      once, carrying both messages as non-null aggregate elements. */
  lemma SelectTwoMessages(row: InterviewRow, a: Message, b: Message)
    requires a.interviewId == row.interviewId && b.interviewId == row.interviewId
    ensures SelectInterview(SqlStorage(Some([row]), Some([a, b]), true), row.interviewId)
            == Done([ToRecord(row, Some([Some(Project(a)), Some(Project(b))]))])
  {
    var id := row.interviewId;
    TwoMessageTranscript(a, b, id);
    var agg := GroupArray([a, b], id);
    assert agg == [Some(Project(a)), Some(Project(b))];
    assert RowsWithId([row], id) == [row] by {
      assert [row][1..] == [];
    }
    var recs := SelectInterview(SqlStorage(Some([row]), Some([a, b]), true), id).value;
    assert |recs| == 1 && recs[0] == ToRecord(row, Some(agg));
    assert recs == [ToRecord(row, Some(agg))];
  }

  /** Both messages belong to the interview, so its transcript is their two
      projections in table order. */
  lemma TwoMessageTranscript(a: Message, b: Message, id: string)
    requires a.interviewId == id && b.interviewId == id
    ensures TranscriptOf([a, b], id) == [Project(a), Project(b)]
  {
    var ms := [a, b];
    assert ms[1..] == [b] && ms[1..][1..] == [];
    assert TranscriptOf(ms[1..][1..], id) == [];
    assert TranscriptOf(ms[1..], id) == [Project(b)] + [];
  }
}

/** The per-owner session object (src/interview.ts): it owns the record store,
    and after every stored message it sends the message to each open socket.

    The sockets are the ones the host hands back from `ctx.getWebSockets()`;
    the model keeps them as a field of the session. Each socket is a value
    recording its ready state, whether `send` throws on it, and the frames it
    has received so far. */
module Session {
  import opened Types
  import opened Errors
  import opened SqlEngine
  import opened Database

  // ---------------------------------------------------------------------------
  // Frames and sockets

  /** The frame broadcast for a stored message: `{...message, type: "message"}`. */
  datatype Payload = Payload(
    messageId: string,
    interviewId: string,
    role: Role,
    content: string,
    timestamp: int,
    kind: string)

  function Envelope(m: Message): (p: Payload)
    ensures p.kind == "message"
    ensures PayloadMessage(p) == m
  {
    Payload(m.messageId, m.interviewId, m.role, m.content, m.timestamp, "message")
  }

  /** The message fields of a frame, without its `type`. */
  function PayloadMessage(p: Payload): Message
  {
    Message(p.messageId, p.interviewId, p.role, p.content, p.timestamp)
  }

  /** `WebSocket.readyState`. */
  datatype ReadyState = Connecting | Open | Closing | Closed

  datatype Socket = Socket(readyState: ReadyState, sendThrows: bool, received: seq<Payload>)

  /** A socket takes a frame when it is open and `send` does not throw on it. */
  predicate Accepts(ws: Socket)
  {
    ws.readyState == Open && !ws.sendThrows
  }

  /** One step of the broadcast loop: send when open; an exception from `send`
      is caught and logged, and the socket is left as it was. */
  function Send(ws: Socket, p: Payload): (r: Socket)
    ensures r.readyState == ws.readyState && r.sendThrows == ws.sendThrows
    ensures r.received == if Accepts(ws) then ws.received + [p] else ws.received
  {
    if ws.readyState == Open then
      if ws.sendThrows then ws else ws.(received := ws.received + [p])
    else ws
  }

  /** Every socket after one broadcast of `p`: each socket that accepts gets
      `p` exactly once, no other socket gets anything, and no socket's ready
      state or failure mode changes. */
  function Broadcasted(sockets: seq<Socket>, p: Payload): (r: seq<Socket>)
    ensures |r| == |sockets|
    ensures forall i :: 0 <= i < |sockets| ==>
      && r[i].readyState == sockets[i].readyState
      && r[i].sendThrows == sockets[i].sendThrows
      && (Accepts(sockets[i]) ==> r[i].received == sockets[i].received + [p])
      && (!Accepts(sockets[i]) ==> r[i].received == sockets[i].received)
  {
    seq(|sockets|, i requires 0 <= i < |sockets| => Send(sockets[i], p))
  }

  /** A socket's outcome depends on that socket alone: a socket whose `send`
      throws, or one that is closed, does not change what any other gets. */
  lemma BroadcastIsolation(sockets: seq<Socket>, others: seq<Socket>, p: Payload, k: nat)
    requires |sockets| == |others| && k < |sockets| && sockets[k] == others[k]
    ensures Broadcasted(sockets, p)[k] == Broadcasted(others, p)[k]
  {
  }

  /** The sockets after a series of broadcasts, one per payload, in order. */
  function BroadcastAll(sockets: seq<Socket>, ps: seq<Payload>): (r: seq<Socket>)
    ensures |r| == |sockets|
    decreases ps
  {
    if ps == [] then sockets
    else BroadcastAll(Broadcasted(sockets, ps[0]), ps[1..])
  }

  /** Across successive broadcasts, a socket that stays open and whose `send`
      succeeds receives the payloads appended in the order they were issued;
      any other socket receives nothing. */
  lemma {:induction false} BroadcastAllInOrder(sockets: seq<Socket>, ps: seq<Payload>, k: nat)
    requires k < |sockets|
    ensures BroadcastAll(sockets, ps)[k].received
            == if Accepts(sockets[k]) then sockets[k].received + ps else sockets[k].received
    ensures Accepts(BroadcastAll(sockets, ps)[k]) == Accepts(sockets[k])
    decreases ps
  {
    if ps != [] {
      var next := Broadcasted(sockets, ps[0]);
      BroadcastAllInOrder(next, ps[1..], k);
      assert next[k] == Send(sockets[k], ps[0]);
      assert ps == [ps[0]] + ps[1..];
    }
  }

  // ---------------------------------------------------------------------------
  // The session object

  class Interview {
    const db: InterviewDatabaseService
    /** The sockets the host reports for this session. */
    var sockets: seq<Socket>

    ghost predicate Valid()
      reads this, db
    {
      db.Valid() && TablesReady(db.sql)
    }

    /** Wraps the session's storage and creates the tables before anything
        else can run; the sockets are the host's. */
    constructor(storage: SqlStorage, connected: seq<Socket>)
      requires WellFormed(storage)
      ensures Valid() && fresh(db)
      ensures db.sql == WithTables(storage) && sockets == connected
    {
      db := new InterviewDatabaseService(storage);
      sockets := connected;
      new;
      db.CreateTables();
    }

    /** Delegates to the store; sends nothing. */
    method CreateInterview(title: string, skills: seq<string>, interviewId: string, now: int)
      returns (r: Result<string>)
      requires Valid()
      modifies db
      ensures Valid()
      ensures Transition(r, db.sql) == CreateInterviewTransition(old(db.sql), title, skills, interviewId, now)
      ensures sockets == old(sockets)
    {
      r := db.CreateInterview(title, skills, interviewId, now);
    }

    /** Delegates to the store; sends nothing. */
    method GetAllInterviews() returns (r: Result<seq<InterviewData>>)
      ensures r == AllInterviews(db.sql)
    {
      r := db.GetAllInterviews();
    }

    /** Stores the message first; only if that succeeds is the stored message
        broadcast. A store failure propagates and no socket receives anything;
        a socket failure is swallowed and the stored message is returned. The
        caller's role is "user" or "assistant". */
    method AddMessage(interviewId: string, role: Role, content: string, messageId: string, now: int)
      returns (r: Result<Message>)
      requires Valid()
      requires role != System
      modifies this, db
      ensures Valid()
      ensures Transition(r, db.sql) == AddMessageTransition(old(db.sql), interviewId, role, content, messageId, now)
      ensures r.Ok? ==> sockets == Broadcasted(old(sockets), Envelope(r.value))
      ensures r.Err? ==> sockets == old(sockets)
    {
      r := db.AddMessage(interviewId, role, content, messageId, now);
      if r.Err? {
        return;
      }
      Broadcast(Envelope(r.value));
    }

    /** The `forEach` over the host's sockets. */
    method Broadcast(p: Payload)
      modifies this`sockets
      ensures sockets == Broadcasted(old(sockets), p)
    {
      var i := 0;
      while i < |sockets|
        invariant i <= |sockets| == |old(sockets)|
        invariant forall k :: 0 <= k < i ==> sockets[k] == Send(old(sockets)[k], p)
        invariant forall k :: i <= k < |sockets| ==> sockets[k] == old(sockets)[k]
      {
        sockets := sockets[i := Send(sockets[i], p)];
        i := i + 1;
      }
    }
  }
}

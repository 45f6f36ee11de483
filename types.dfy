/** Closed enumerations and record shapes of the interview tool (src/types.ts).

    Every enumeration is a datatype together with the string it is written as
    (`...Name`) and a decoder (`Parse...`) that is its exact inverse. */
module Types {

  datatype Option<+T> = None | Some(value: T)

  // ---------------------------------------------------------------------------
  // InterviewSkill

  datatype Skill = JavaScript | TypeScript | React | NodeJS | Python

  function SkillName(s: Skill): string
  {
    match s
    case JavaScript => "JavaScript"
    case TypeScript => "TypeScript"
    case React => "React"
    case NodeJS => "NodeJS"
    case Python => "Python"
  }

  /** Decoding a skill: the only skill whose name is `t`, if there is one. */
  function ParseSkill(t: string): (r: Option<Skill>)
    ensures forall s :: r == Some(s) <==> SkillName(s) == t
  {
    if t == "JavaScript" then Some(JavaScript)
    else if t == "TypeScript" then Some(TypeScript)
    else if t == "React" then Some(React)
    else if t == "NodeJS" then Some(NodeJS)
    else if t == "Python" then Some(Python)
    else None
  }

  // ---------------------------------------------------------------------------
  // InterviewTitle

  datatype Title =
    | JuniorDeveloper | SeniorDeveloper | FullStackDeveloper | FrontendDeveloper
    | BackendDeveloper | SystemArchitect | TechnicalLead

  function TitleName(t: Title): string
  {
    match t
    case JuniorDeveloper => "Junior Developer Interview"
    case SeniorDeveloper => "Senior Developer Interview"
    case FullStackDeveloper => "Full Stack Developer Interview"
    case FrontendDeveloper => "Frontend Developer Interview"
    case BackendDeveloper => "Backend Developer Interview"
    case SystemArchitect => "System Architect Interview"
    case TechnicalLead => "Technical Lead Interview"
  }

  /** Decoding a title: the only title whose name is `t`, if there is one. */
  function ParseTitle(t: string): (r: Option<Title>)
    ensures forall x :: r == Some(x) <==> TitleName(x) == t
  {
    if t == "Junior Developer Interview" then Some(JuniorDeveloper)
    else if t == "Senior Developer Interview" then Some(SeniorDeveloper)
    else if t == "Full Stack Developer Interview" then Some(FullStackDeveloper)
    else if t == "Frontend Developer Interview" then Some(FrontendDeveloper)
    else if t == "Backend Developer Interview" then Some(BackendDeveloper)
    else if t == "System Architect Interview" then Some(SystemArchitect)
    else if t == "Technical Lead Interview" then Some(TechnicalLead)
    else None
  }

  // ---------------------------------------------------------------------------
  // InterviewStatus

  datatype Status = Created | Pending | InProgress | Completed | Cancelled

  function StatusName(s: Status): string
  {
    match s
    case Created => "created"
    case Pending => "pending"
    case InProgress => "in_progress"
    case Completed => "completed"
    case Cancelled => "cancelled"
  }

  /** Decoding a status: the only status whose name is `t`, if there is one. */
  function ParseStatus(t: string): (r: Option<Status>)
    ensures forall s :: r == Some(s) <==> StatusName(s) == t
  {
    if t == "created" then Some(Created)
    else if t == "pending" then Some(Pending)
    else if t == "in_progress" then Some(InProgress)
    else if t == "completed" then Some(Completed)
    else if t == "cancelled" then Some(Cancelled)
    else None
  }

  // ---------------------------------------------------------------------------
  // MessageRole

  datatype Role = User | Assistant | System

  function RoleName(r: Role): string
  {
    match r
    case User => "user"
    case Assistant => "assistant"
    case System => "system"
  }

  /** Decoding a role: "user", "assistant" and "system" are the only roles. */
  function ParseRole(t: string): (r: Option<Role>)
    ensures forall x :: r == Some(x) <==> RoleName(x) == t
    ensures r.Some? <==> t in {"user", "assistant", "system"}
  {
    if t == "user" then Some(User)
    else if t == "assistant" then Some(Assistant)
    else if t == "system" then Some(System)
    else None
  }

  /** Every enumeration's encoding is injective: distinct values are written
      as distinct strings, so each decoder recovers the value it was given. */
  lemma EncodingsRoundTrip(s: Skill, t: Title, st: Status, r: Role)
    ensures ParseSkill(SkillName(s)) == Some(s)
    ensures ParseTitle(TitleName(t)) == Some(t)
    ensures ParseStatus(StatusName(st)) == Some(st)
    ensures ParseRole(RoleName(r)) == Some(r)
  {
  }

  // ---------------------------------------------------------------------------
  // Records

  /** A stored message: exactly the five fields of a row of `messages`. */
  datatype Message = Message(
    messageId: string,
    interviewId: string,
    role: Role,
    content: string,
    timestamp: int)

  /** A transcript entry as the single-interview read builds it: the message's
      fields without `interviewId`. */
  datatype TranscriptEntry = TranscriptEntry(
    messageId: string,
    role: Role,
    content: string,
    timestamp: int)

  /** An interview as read back from the store. The title, skills and status
      are the text the store holds: the casts to the enumerations are
      unchecked, so they need not be names of enumeration values. */
  datatype InterviewData = InterviewData(
    interviewId: string,
    title: string,
    skills: seq<string>,
    messages: seq<TranscriptEntry>,
    status: string,
    createdAt: int,
    updatedAt: int)
}

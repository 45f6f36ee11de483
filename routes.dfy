/** The interview-creation route (src/routes/interview.ts): the input guard
    and the handler that runs it before asking the session to store anything. */
module Routes {
  import opened Types
  import opened Errors
  import opened Database
  import opened Session

  /** What the request body holds under `skills`: an array of strings, or
      some value that is not an array. */
  datatype SkillsValue = NotAnArray | AnArray(items: seq<string>)

  /** The parsed request body. `None` stands for a missing field (or a
      `null` one). */
  datatype InterviewInput = InterviewInput(title: Option<string>, skills: Option<SkillsValue>)

  const InvalidInputMessage := "Invalid input"

  /** `validateInterviewInput`: the title must be present and non-empty, and
      `skills` must be present, an array, and not empty. Whether the values
      name an `InterviewTitle` or `InterviewSkill` is not checked. */
  function ValidateInterviewInput(input: InterviewInput): (r: Result<()>)
    ensures r.Err? ==> r.error == NewBadRequestError(InvalidInputMessage)
    ensures input.title.None? || input.title == Some("") ==> r.Err?
    ensures input.skills.None? ==> r.Err?
    ensures input.skills == Some(NotAnArray) ==> r.Err?
    ensures input.skills == Some(AnArray([])) ==> r.Err?
    ensures input.title.Some? && input.title.value != ""
            && input.skills.Some? && input.skills.value.AnArray? && input.skills.value.items != []
            ==> r.Ok?
  {
    if || input.title.None? || input.title.value == ""
       || input.skills.None?
       || !input.skills.value.AnArray?
       || |input.skills.value.items| == 0
    then Err(NewBadRequestError(InvalidInputMessage))
    else Ok(())
  }

  /** An accepted body need not name enumeration values: the guard lets a
      title and a skill through that no `InterviewTitle` or `InterviewSkill`
      is written as. */
  lemma MembershipNotChecked()
    ensures var input := InterviewInput(Some("Chef Interview"), Some(AnArray(["Cooking"])));
      && ValidateInterviewInput(input).Ok?
      && ParseTitle("Chef Interview") == None
      && ParseSkill("Cooking") == None
  {
  }

  /** The JSON answer `{ success: true, interviewId }`. */
  datatype CreateResponse = CreateResponse(success: bool, interviewId: string)

  /** The POST handler: validate, then create through the session. A rejected
      body throws `BadRequestError("Invalid input")` and stores nothing; an
      accepted one answers with the id the store returned, or rethrows the
      store's error. `interviewId` and `now` stand for the store's
      `crypto.randomUUID()` and `Date.now()`. */
  method HandleCreateInterview(session: Interview, body: InterviewInput, interviewId: string, now: int)
    returns (r: Result<CreateResponse>)
    requires session.Valid()
    modifies session.db
    ensures session.Valid()
    ensures ValidateInterviewInput(body).Err? ==>
              && r == Err(NewBadRequestError(InvalidInputMessage))
              && session.db.sql == old(session.db.sql)
    ensures ValidateInterviewInput(body).Ok? ==>
              var t := CreateInterviewTransition(old(session.db.sql), body.title.value,
                                                 body.skills.value.items, interviewId, now);
              && session.db.sql == t.after
              && (t.result.Ok? ==> r == Ok(CreateResponse(true, t.result.value)))
              && (t.result.Err? ==> r == Err(t.result.error))
  {
    var valid := ValidateInterviewInput(body);
    if valid.Err? {
      return Err(valid.error);
    }
    var created := session.CreateInterview(body.title.value, body.skills.value.items, interviewId, now);
    if created.Err? {
      return Err(created.error);
    }
    r := Ok(CreateResponse(true, created.value));
  }
}

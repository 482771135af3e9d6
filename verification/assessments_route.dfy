/** The assessments collection endpoint: listing by role, and creation with
    the AI-generated questions turned into question rows
    (app/api/assessments/route.ts). */
module AssessmentsRoute {
  import opened Common
  import opened Schema
  import opened AssessmentAnalytics

  /** GET: instructors see the assessments they created, everyone else the
      published ones, in the table's (newest-first) order. `None` is a
      query that threw; a user lookup that threw is answered 500 as well. */
  function ListAssessments(caller: Caller, table: Option<seq<Assessment>>): (r: HttpResult<seq<Assessment>>)
    ensures caller.userId.None? <==> r == Status(401, "Unauthorized")
    ensures caller.userId.Some? && caller.user.LookupFailed? ==> r == Status(500, "Internal Error")
    ensures caller.userId.Some? && table.None? ==> r == Status(500, "Internal Error")
    ensures r.Ok? <==> caller.userId.Some? && caller.user.Found? && table.Some?
    ensures r.Ok? ==> table.Some? && IsSubseq(r.body, table.value)
    ensures r.Ok? && caller.IsInstructor() ==>
      forall a :: a in r.body <==> a in table.value && Some(a.createdById) == caller.userId
    ensures r.Ok? && !caller.IsInstructor() ==>
      forall a :: a in r.body <==> a in table.value && a.isPublished
  {
    match caller.userId
    case None => Status(401, "Unauthorized")
    case Some(uid) =>
      if caller.user.LookupFailed? then Status(500, "Internal Error")
      else match table
      case None => Status(500, "Internal Error")
      case Some(rows) =>
        if caller.IsInstructor() then Ok(Filter(rows, (a: Assessment) => a.createdById == uid))
        else Ok(Filter(rows, (a: Assessment) => a.isPublished))
  }

  /** getDifficultyValue: EASY is 1, HARD is 3, any other string 2. */
  function DifficultyValue(level: string): (v: int)
    ensures v == 1 <==> level == "EASY"
    ensures v == 3 <==> level == "HARD"
    ensures v == 2 <==> level != "EASY" && level != "HARD"
  {
    if level == "EASY" then 1
    else if level == "HARD" then 3
    else 2
  }

  /** The stored difficulty: 2 when the request gives none. */
  function StoredDifficulty(level: Option<string>): (v: int)
    ensures 1 <= v <= 3
    ensures !Truthy(level) ==> v == 2
    ensures Truthy(level) ==> v == DifficultyValue(level.value)
  {
    if Truthy(level) then DifficultyValue(level.value) else 2
  }

  /** The label survives a trip through the stored integer. */
  lemma LabelValueRoundTrip(d: Difficulty)
    ensures DifficultyLabel(DifficultyValue(d.Name())) == d
  {
  }

  /** And the stored integers 1, 2, 3 survive a trip through the label. */
  lemma ValueLabelRoundTrip(v: int)
    requires 1 <= v <= 3
    ensures DifficultyValue(DifficultyLabel(v).Name()) == v
  {
  }

  /** A question as the AI content carries it; absent fields are `None`. */
  datatype AiQuestion = AiQuestion(
    qtype: string,
    question: string,
    options: Option<seq<string>>,
    correctAnswer: Option<string>,
    sampleAnswer: Option<string>)

  datatype AiContent = AiContent(questions: Option<seq<AiQuestion>>)

  /** The data of one `assessmentQuestion.create`. */
  datatype QuestionRow = QuestionRow(
    assessmentId: string,
    questionType: string,
    question: string,
    options: Option<seq<string>>,
    correctAnswer: Option<string>,
    marks: int,
    difficultyLevel: int)

  predicate IsOpenType(t: string) {
    t == "PRACTICAL" || t == "VIVA" || t == "PEN_PAPER"
  }

  /** The question types the creation loop handles. */
  predicate Recognized(q: AiQuestion) {
    q.qtype == "MCQ" || q.qtype == "DESCRIPTIVE" || IsOpenType(q.qtype)
  }

  /** The row created for a recognised question of an assessment stored at
      difficulty `d`: multiple choice is worth `d` and keeps its answer;
      the others are worth `d + 1` and take the sample answer. */
  function RowFor(q: AiQuestion, assessmentId: string, d: int): (row: QuestionRow)
    requires Recognized(q)
    ensures row.assessmentId == assessmentId && row.question == q.question
    ensures row.questionType == q.qtype && row.difficultyLevel == d
    ensures q.qtype == "MCQ" ==> row.marks == d && row.correctAnswer == q.correctAnswer && row.options == q.options
    ensures q.qtype != "MCQ" ==> row.marks == d + 1 && row.options.None?
    ensures q.qtype == "DESCRIPTIVE" ==> row.correctAnswer == q.sampleAnswer
    ensures IsOpenType(q.qtype) ==>
      row.correctAnswer == Some(if Truthy(q.sampleAnswer) then q.sampleAnswer.value
                                else if Truthy(q.correctAnswer) then q.correctAnswer.value
                                else "")
  {
    if q.qtype == "MCQ" then
      QuestionRow(assessmentId, "MCQ", q.question, q.options, q.correctAnswer, d, d)
    else if q.qtype == "DESCRIPTIVE" then
      QuestionRow(assessmentId, "DESCRIPTIVE", q.question, None, q.sampleAnswer, d + 1, d)
    else
      QuestionRow(assessmentId, q.qtype, q.question, None,
                  Some(OrElse(q.sampleAnswer, OrElse(q.correctAnswer, ""))), d + 1, d)
  }

  /** The creation loop: recognised questions become rows, in input order;
      the rest are skipped. */
  function QuestionRows(qs: seq<AiQuestion>, assessmentId: string, d: int): (rows: seq<QuestionRow>)
    ensures var kept := Filter(qs, Recognized);
      |rows| == |kept| && forall i :: 0 <= i < |rows| ==> rows[i] == RowFor(kept[i], assessmentId, d)
  {
    if |qs| == 0 then []
    else if Recognized(qs[0]) then [RowFor(qs[0], assessmentId, d)] + QuestionRows(qs[1..], assessmentId, d)
    else QuestionRows(qs[1..], assessmentId, d)
  }

  /** Every created question carries the assessment's difficulty, a known
      type, and marks of `d` or `d + 1`. */
  lemma QuestionRowsShape(qs: seq<AiQuestion>, assessmentId: string, d: int)
    ensures forall row :: row in QuestionRows(qs, assessmentId, d) ==>
      && row.difficultyLevel == d
      && row.assessmentId == assessmentId
      && (row.questionType == "MCQ" || row.questionType == "DESCRIPTIVE" || IsOpenType(row.questionType))
      && row.marks == (if row.questionType == "MCQ" then d else d + 1)
    ensures |QuestionRows(qs, assessmentId, d)| <= |qs|
  {
    var rows := QuestionRows(qs, assessmentId, d);
    var kept := Filter(qs, Recognized);
    forall row | row in rows
      ensures row.difficultyLevel == d && row.assessmentId == assessmentId
      ensures row.questionType == "MCQ" || row.questionType == "DESCRIPTIVE" || IsOpenType(row.questionType)
      ensures row.marks == (if row.questionType == "MCQ" then d else d + 1)
    {
      var i :| 0 <= i < |rows| && rows[i] == row;
      assert kept[i] in kept;
    }
  }

  /** The POST body; absent fields are `None`. */
  datatype CreateRequest = CreateRequest(
    title: Option<string>,
    description: Option<string>,
    assessmentType: Option<string>,
    courseId: Option<string>,
    inclusivityMode: Option<bool>,
    difficultyLevel: Option<string>,
    aiGenerated: bool,
    aiContent: Option<AiContent>)

  /** The data of the `assessment.create`. */
  datatype AssessmentRow = AssessmentRow(
    id: string,
    title: string,
    description: Option<string>,
    assessmentType: Option<string>,
    createdById: string,
    courseId: Option<string>,
    inclusivityMode: bool,
    difficultyLevel: int)

  /** What a successful POST writes: the assessment and its questions. */
  datatype Creation = Creation(assessment: AssessmentRow, questions: seq<QuestionRow>)

  /** Questions are created only for AI-generated requests whose content
      has a question list (an empty list counts as present). */
  predicate CreatesQuestions(req: CreateRequest) {
    req.aiGenerated && req.aiContent.Some? && req.aiContent.value.questions.Some?
  }

  /** POST. `body` is the parsed JSON (`None` if parsing threw) and `newId`
      the id the database gives the new row (`None` if the insert threw). */
  function CreateAssessment(caller: Caller, body: Option<CreateRequest>, newId: Option<string>)
    : (r: HttpResult<Creation>)
    ensures caller.userId.None? ==> r == Status(401, "Unauthorized")
    ensures caller.userId.Some? && caller.user.LookupFailed? ==> r == Status(500, "Internal Error")
    ensures caller.userId.Some? && caller.user.Found? && !caller.IsInstructor() ==>
      r == Status(403, "Access denied. Only instructors can create assessments.")
    ensures caller.userId.Some? && caller.IsInstructor() && body.Some? && !Truthy(body.value.title) ==>
      r == Status(400, "Title is required")
    ensures caller.userId.Some? && caller.IsInstructor()
            && (body.None? || (Truthy(body.value.title) && newId.None?)) ==>
      r == Status(500, "Internal Error")
    ensures r.Ok? <==> caller.userId.Some? && caller.IsInstructor() && body.Some?
                       && Truthy(body.value.title) && newId.Some?
    ensures r.Ok? ==>
      var req := body.value;
      var d := StoredDifficulty(req.difficultyLevel);
      && r.body.assessment.createdById == caller.userId.value
      && r.body.assessment.title == req.title.value
      && r.body.assessment.description == req.description
      && r.body.assessment.assessmentType == req.assessmentType
      && r.body.assessment.courseId == req.courseId
      && r.body.assessment.difficultyLevel == d
      && r.body.assessment.inclusivityMode == (req.inclusivityMode == Some(true))
      && r.body.assessment.id == newId.value
      && (CreatesQuestions(req) ==>
            r.body.questions == QuestionRows(req.aiContent.value.questions.value, newId.value, d))
      && (!CreatesQuestions(req) ==> r.body.questions == [])
  {
    if caller.userId.None? then Status(401, "Unauthorized")
    else if caller.user.LookupFailed? then Status(500, "Internal Error")
    else if !caller.IsInstructor() then Status(403, "Access denied. Only instructors can create assessments.")
    else if body.None? then Status(500, "Internal Error")
    else
      var req := body.value;
      if !Truthy(req.title) then Status(400, "Title is required")
      else if newId.None? then Status(500, "Internal Error")
      else
        var d := StoredDifficulty(req.difficultyLevel);
        var row := AssessmentRow(newId.value, req.title.value, req.description, req.assessmentType, caller.userId.value,
                                 req.courseId, req.inclusivityMode.GetOr(false), d);
        var questions := if CreatesQuestions(req)
                         then QuestionRows(req.aiContent.value.questions.value, newId.value, d)
                         else [];
        Ok(Creation(row, questions))
  }
}

/** Instructor-only generation of assessment content by a language model
    (app/api/assessments/generate/route.ts): the request checks, the prompt,
    and the extraction of a JSON document from a possibly fenced reply. */
module GenerateRoute {
  import opened Common
  import opened Schema
  import opened Text

  /** `questionFormat` as sent: an array, a single value, or absent. */
  datatype Format = Formats(items: seq<string>) | OneFormat(item: string) | NoFormat

  /** `Array.isArray(f) ? f : [f]`; an absent value joins as the empty string. */
  function QuestionTypes(f: Format): (types: seq<string>)
    ensures f.Formats? ==> types == f.items
    ensures f.OneFormat? ==> types == [f.item]
    ensures f.NoFormat? ==> types == [""]
  {
    match f
    case Formats(items) => items
    case OneFormat(item) => [item]
    case NoFormat => [""]
  }

  datatype GenerateRequest = GenerateRequest(
    topic: Option<string>,
    description: Option<string>,
    assessmentType: Option<string>,
    questionFormat: Format,
    difficultyLevel: Option<string>)

  function Opening(topic: string): string {
    "Create an assessment on the topic: \"" + topic + "\". "
  }

  function ContextPart(description: Option<string>): string {
    if Truthy(description) then "Additional context: " + description.value + ". " else ""
  }

  function ModeHead(assessmentType: string): string {
    "The assessment is for " + ToLower(assessmentType) + " mode and should include the following question types: "
  }

  function ModePart(assessmentType: string, types: seq<string>): string {
    ModeHead(assessmentType) + Join(types, ", ") + ". "
  }

  function DifficultyPart(difficulty: string): string {
    "The difficulty level should be " + ToLower(difficulty) + ". "
  }

  /** The prompt sent to the model: the opening with the topic, the
      optional context sentence, the mode and question types, the
      difficulty, and the fixed `tail`, in that order. */
  function BuildPrompt(topic: string, description: Option<string>, assessmentType: string,
                       types: seq<string>, difficulty: string, tail: string): (p: string)
    ensures |p| == |Opening(topic)| + |ContextPart(description)| + |ModePart(assessmentType, types)|
                   + |DifficultyPart(difficulty)| + |tail|
    ensures OccursAt(p, Opening(topic), 0)
    ensures OccursAt(p, ContextPart(description), |Opening(topic)|)
    ensures OccursAt(p, ModePart(assessmentType, types), |Opening(topic)| + |ContextPart(description)|)
    ensures OccursAt(p, DifficultyPart(difficulty), |p| - |tail| - |DifficultyPart(difficulty)|)
    ensures OccursAt(p, tail, |p| - |tail|)
  {
    Assemble(Opening(topic), ContextPart(description), ModePart(assessmentType, types),
             DifficultyPart(difficulty), tail)
  }

  /** Five parts concatenated, each occurring at its offset. */
  function Assemble(a: string, b: string, c: string, d: string, e: string): (p: string)
    ensures |p| == |a| + |b| + |c| + |d| + |e|
    ensures OccursAt(p, a, 0) && OccursAt(p, b, |a|) && OccursAt(p, c, |a| + |b|)
    ensures OccursAt(p, d, |a| + |b| + |c|) && OccursAt(p, e, |a| + |b| + |c| + |d|)
  {
    var p := a + b + c + d + e;
    assert p[..|a|] == a;
    assert p[|a|..|a| + |b|] == b;
    assert p[|a| + |b|..|a| + |b| + |c|] == c;
    assert p[|a| + |b| + |c|..|a| + |b| + |c| + |d|] == d;
    assert p[|a| + |b| + |c| + |d|..] == e;
    p
  }

  /** The instructions and JSON layout the route appends to every prompt.
      The route's behaviour below is stated for any such text. */
  function Instructions(): string {
    @"For each question type, generate appropriate questions with answers. For MCQ questions, include 4 options with the correct answer marked. Format the response as a JSON object with the following structure:
    {
      ""questions"": [
        {
          ""type"": ""MCQ"", 
          ""question"": ""Question text here?"",
          ""options"": [""Option A"", ""Option B"", ""Option C"", ""Option D""],
          ""correctAnswer"": ""Option A"",
          ""explanation"": ""Explanation for the correct answer""
        },
        {
          ""type"": ""DESCRIPTIVE"",
          ""question"": ""Question text here?"",
          ""sampleAnswer"": ""Sample answer here"",
          ""rubric"": ""Grading criteria here""
        },
        // Include other question types as applicable
      ]
    }
    Make sure your response is valid JSON that can be parsed with JSON.parse() and nothing else."
  }

  /** The prompt of a request that passed the checks, ending with the fixed
      `instructions`. */
  function Prompt(req: GenerateRequest, instructions: string): string
    requires Truthy(req.topic) && req.assessmentType.Some?
  {
    BuildPrompt(req.topic.value, req.description, req.assessmentType.value,
                QuestionTypes(req.questionFormat), OrElse(req.difficultyLevel, "MEDIUM"), instructions)
  }

  /** A checked request's topic, truthy description and question types reach
      the prompt, and so does its difficulty, "MEDIUM" when it is absent or
      empty: such a request prompts exactly as one asking for "MEDIUM". */
  lemma PromptReflectsRequest(req: GenerateRequest, instructions: string)
    requires Truthy(req.topic) && req.assessmentType.Some?
    ensures IsSubstring(req.topic.value, Prompt(req, instructions))
    ensures Truthy(req.description) ==> IsSubstring(req.description.value, Prompt(req, instructions))
    ensures IsSubstring(Join(QuestionTypes(req.questionFormat), ", "), Prompt(req, instructions))
    ensures Truthy(req.difficultyLevel) ==>
      IsSubstring(ToLower(req.difficultyLevel.value), Prompt(req, instructions))
    ensures !Truthy(req.difficultyLevel) ==>
      Prompt(req, instructions) == Prompt(req.(difficultyLevel := Some("MEDIUM")), instructions)
  {
    PromptMentions(req.topic.value, req.description, req.assessmentType.value,
                   QuestionTypes(req.questionFormat), OrElse(req.difficultyLevel, "MEDIUM"), instructions);
  }

  /** Each part of a concatenation occurs at its offset. */
  lemma ConcatOccurs(a: string, b: string, c: string)
    ensures OccursAt(a + b + c, a, 0) && OccursAt(a + b + c, b, |a|)
    ensures a + b + c == a + (b + c)
  {
    assert (a + b + c)[..|a|] == a;
    assert (a + b + c)[|a|..|a| + |b|] == b;
  }

  /** The request's own words reach the model: the topic, a truthy
      description, the lower-cased difficulty and the joined types. */
  lemma PromptMentions(topic: string, description: Option<string>, assessmentType: string,
                       types: seq<string>, difficulty: string, tail: string)
    ensures var p := BuildPrompt(topic, description, assessmentType, types, difficulty, tail);
      && IsSubstring(topic, p)
      && (Truthy(description) ==> IsSubstring(description.value, p))
      && IsSubstring(ToLower(difficulty), p)
      && IsSubstring(Join(types, ", "), p)
  {
    var p := BuildPrompt(topic, description, assessmentType, types, difficulty, tail);
    var o, c := Opening(topic), ContextPart(description);
    TopicInPrompt(p, topic, 0);
    if Truthy(description) {
      DescriptionInPrompt(p, description, |o|);
    }
    TypesInPrompt(p, assessmentType, types, |o| + |c|);
    DifficultyInPrompt(p, difficulty, |p| - |tail| - |DifficultyPart(difficulty)|);
  }

  /** The topic occurs inside the opening sentence. */
  lemma TopicInPrompt(p: string, topic: string, at: nat)
    requires OccursAt(p, Opening(topic), at)
    ensures IsSubstring(topic, p)
  {
    OccursWithin(p, Opening(topic), at, "Create an assessment on the topic: \"", topic, "\". ");
  }

  /** A truthy description occurs inside the context sentence. */
  lemma DescriptionInPrompt(p: string, description: Option<string>, at: nat)
    requires Truthy(description) && OccursAt(p, ContextPart(description), at)
    ensures IsSubstring(description.value, p)
  {
    OccursWithin(p, ContextPart(description), at, "Additional context: ", description.value, ". ");
  }

  /** The joined question types occur inside the mode sentence. */
  lemma TypesInPrompt(p: string, assessmentType: string, types: seq<string>, at: nat)
    requires OccursAt(p, ModePart(assessmentType, types), at)
    ensures IsSubstring(Join(types, ", "), p)
  {
    OccursWithin(p, ModePart(assessmentType, types), at, ModeHead(assessmentType), Join(types, ", "), ". ");
  }

  /** The lower-cased difficulty occurs inside the difficulty sentence. */
  lemma DifficultyInPrompt(p: string, difficulty: string, at: nat)
    requires OccursAt(p, DifficultyPart(difficulty), at)
    ensures IsSubstring(ToLower(difficulty), p)
  {
    OccursWithin(p, DifficultyPart(difficulty), at, "The difficulty level should be ", ToLower(difficulty), ". ");
  }

  /** A word occurring inside a segment occurs in the whole text. */
  lemma OccursWithin(p: string, seg: string, at: nat, x: string, w: string, y: string)
    requires seg == x + w + y
    requires OccursAt(p, seg, at)
    ensures OccursAt(p, w, at + |x|) && IsSubstring(w, p)
  {
    ConcatOccurs(x, w, y);
    forall k | 0 <= k < |w|
      ensures p[at + |x| + k] == w[k]
    {
      assert p[at + |x| + k] == p[at..at + |seg|][|x| + k];
      assert seg[|x|..|x| + |w|][k] == seg[|x| + k];
    }
    assert p[at + |x|..at + |x| + |w|] == w;
    assert OccursAt(p, w, at + |x|);
  }

  /** A falsy description (absent or empty) leaves no trace in the prompt;
      a non-empty one adds exactly its own sentence. */
  lemma PromptDescription(topic: string, d: string, assessmentType: string, types: seq<string>,
                          difficulty: string, tail: string)
    ensures BuildPrompt(topic, Some(""), assessmentType, types, difficulty, tail)
         == BuildPrompt(topic, None, assessmentType, types, difficulty, tail)
    ensures d != "" ==>
      |BuildPrompt(topic, Some(d), assessmentType, types, difficulty, tail)|
        == |BuildPrompt(topic, None, assessmentType, types, difficulty, tail)| + |d| + 22
  {
    assert ContextPart(Some("")) == ContextPart(None);
  }

  const JsonFence: string := "```json\n"
  const PlainFence: string := "```\n"
  const CloseFence: string := "\n```"

  /** The first position at or after `from` where `w` occurs. */
  function FindFrom(t: string, w: string, from: nat): (r: Option<nat>)
    ensures r.Some? ==> from <= r.value && OccursAt(t, w, r.value)
    ensures forall k: nat :: from <= k && (r.None? || k < r.value) ==> !OccursAt(t, w, k)
    decreases |t| - from
  {
    if from + |w| > |t| then None
    else if OccursAt(t, w, from) then Some(from)
    else FindFrom(t, w, from + 1)
  }

  /** `open` at `i`, then the closing fence at `j`, with the capture between. */
  ghost predicate Encloses(t: string, open: string, i: nat, j: nat) {
    OccursAt(t, open, i) && i + |open| <= j && OccursAt(t, CloseFence, j)
  }

  /** The capture group of `/<open>([\s\S]*?)\n```/`: `None` when the
      expression does not match. */
  function FenceMatch(t: string, open: string): (r: Option<string>)
    ensures r.Some? ==> |r.value| + |open| + |CloseFence| <= |t|
  {
    match FindFrom(t, open, 0)
    case None => None
    case Some(i) =>
      match FindFrom(t, CloseFence, i + |open|)
      case None => None
      case Some(j) => Some(t[i + |open|..j])
  }

  /** The match is the regular expression's: it exists exactly when some
      opening fence is followed by a closing one, and it is the leftmost
      opening with the nearest closing after it (the lazy quantifier). */
  lemma FenceMatchIsLeftmostShortest(t: string, open: string)
    ensures FenceMatch(t, open).None? <==> forall i: nat, j: nat :: !Encloses(t, open, i, j)
    ensures FenceMatch(t, open).Some? ==>
      exists i: nat, j: nat :: Encloses(t, open, i, j) && FenceMatch(t, open).value == t[i + |open|..j]
        && forall i': nat, j': nat :: Encloses(t, open, i', j') ==> i < i' || (i == i' && j <= j')
  {
    match FindFrom(t, open, 0)
    case None =>
      forall i: nat, j: nat ensures !Encloses(t, open, i, j) {
        assert !OccursAt(t, open, i);
      }
    case Some(i) =>
      match FindFrom(t, CloseFence, i + |open|)
      case None =>
        forall i': nat, j': nat ensures !Encloses(t, open, i', j') {
          if OccursAt(t, open, i') {
            assert i <= i';
            assert !OccursAt(t, CloseFence, j') || j' < i' + |open|;
          }
        }
      case Some(j) =>
        assert Encloses(t, open, i, j);
        forall i': nat, j': nat | Encloses(t, open, i', j')
          ensures i < i' || (i == i' && j <= j')
        {
          assert i <= i';
          if i == i' {
            assert j <= j';
          }
        }
    }

  /** extractJson: the `json`-fenced body, else the plain-fenced body, else
      the whole reply; a fence that matches with an empty body also gives
      the whole reply (and does not fall through to the next pattern). */
  function ExtractJson(t: string): (r: string)
    ensures r == "" <==> t == ""
    ensures r != t ==> |r| + |PlainFence| + |CloseFence| <= |t|
  {
    var m := FenceMatch(t, JsonFence);
    var m' := if m.Some? then m else FenceMatch(t, PlainFence);
    if m'.Some? && m'.value != "" then m'.value else t
  }

  /** What is parsed is always a stretch of the reply. */
  lemma ExtractJsonIsSubstring(t: string)
    ensures IsSubstring(ExtractJson(t), t)
  {
    var r := ExtractJson(t);
    if r == t {
      assert OccursAt(t, r, 0);
    } else {
      var m := FenceMatch(t, JsonFence);
      var open := if m.Some? then JsonFence else PlainFence;
      FenceMatchIsLeftmostShortest(t, open);
      var i: nat, j: nat :| Encloses(t, open, i, j) && r == t[i + |open|..j];
      assert OccursAt(t, r, i + |open|);
    }
  }

  predicate NoBacktick(s: string) {
    forall k :: 0 <= k < |s| ==> s[k] != '`'
  }

  /** A reply with no backtick is parsed whole. */
  lemma UnfencedReplyKept(t: string)
    requires NoBacktick(t)
    ensures ExtractJson(t) == t
  {
    forall open: string, i: nat, j: nat | |open| > 0 && open[0] == '`'
      ensures !Encloses(t, open, i, j)
    {
    }
    FenceMatchIsLeftmostShortest(t, JsonFence);
    FenceMatchIsLeftmostShortest(t, PlainFence);
  }

  /** A fence starting with a backtick cannot start where there is none. */
  lemma NoOpeningIn(t: string, w: string, lo: nat, hi: nat)
    requires |w| > 0 && w[0] == '`'
    requires hi <= |t| && forall k :: lo <= k < hi ==> t[k] != '`'
    ensures forall k: nat :: lo <= k < hi ==> !OccursAt(t, w, k)
  {
    forall k: nat | lo <= k < hi
      ensures OccursAt(t, w, k) ==> t[k] == '`'
    {
      if k + |w| <= |t| {
        assert t[k..k + |w|][0] == t[k];
      }
    }
  }

  /** The closing fence's second character is a backtick, so it cannot
      start at `j` unless `t[j + 1]` is one. */
  lemma NoClosingIn(t: string, lo: nat, hi: nat)
    requires hi < |t| && forall k :: lo < k <= hi ==> t[k] != '`'
    ensures forall j: nat :: lo <= j < hi ==> !OccursAt(t, CloseFence, j)
  {
    forall j: nat | lo <= j < hi
      ensures OccursAt(t, CloseFence, j) ==> t[j + 1] == '`'
    {
      if j + |CloseFence| <= |t| {
        assert t[j..j + |CloseFence|][1] == t[j + 1];
      }
    }
  }

  /** Where the pieces of a fenced reply sit. */
  lemma FencedLayout(pre: string, body: string, post: string)
    ensures var t := pre + JsonFence + body + CloseFence + post;
      var i0, j0 := |pre|, |pre| + |JsonFence| + |body|;
      && j0 < |t| && t[j0] == '\n'
      && Encloses(t, JsonFence, i0, j0)
      && t[i0 + |JsonFence|..j0] == body
      && (forall k :: 0 <= k < i0 ==> t[k] == pre[k])
      && (forall k :: i0 + |JsonFence| <= k < j0 ==> t[k] == body[k - i0 - |JsonFence|])
  {
    var t := pre + JsonFence + body + CloseFence + post;
    var i0, j0 := |pre|, |pre| + |JsonFence| + |body|;
    assert t == pre + (JsonFence + (body + (CloseFence + post)));
    assert t[i0..i0 + |JsonFence|] == JsonFence;
    assert t[i0 + |JsonFence|..j0] == body;
    assert t[j0..j0 + |CloseFence|] == CloseFence;
  }

  /** A non-empty body without backticks, fenced as `json` after a preamble
      without backticks, is recovered exactly. */
  lemma JsonFenceRoundTrip(pre: string, body: string, post: string)
    requires NoBacktick(pre) && NoBacktick(body) && body != ""
    ensures ExtractJson(pre + JsonFence + body + CloseFence + post) == body
  {
    var t := pre + JsonFence + body + CloseFence + post;
    var i0, j0 := |pre|, |pre| + |JsonFence| + |body|;
    FencedLayout(pre, body, post);
    NoOpeningIn(t, JsonFence, 0, i0);
    NoClosingIn(t, i0 + |JsonFence|, j0);
    FirstFenceExtracted(t, i0, j0);
  }

  /** A `json` fence with no earlier opening and no earlier closing after
      it yields its non-empty body. */
  lemma FirstFenceExtracted(t: string, i0: nat, j0: nat)
    requires Encloses(t, JsonFence, i0, j0) && t[i0 + |JsonFence|..j0] != ""
    requires forall k: nat :: k < i0 ==> !OccursAt(t, JsonFence, k)
    requires forall k: nat :: i0 + |JsonFence| <= k < j0 ==> !OccursAt(t, CloseFence, k)
    ensures ExtractJson(t) == t[i0 + |JsonFence|..j0]
  {
    assert FindFrom(t, JsonFence, 0) == Some(i0);
    assert FindFrom(t, CloseFence, i0 + |JsonFence|) == Some(j0);
  }

  /** The leftmost `json` fence, closed at the nearest closing fence, gives
      its body when that is non-empty, wherever plain fences are. */
  lemma JsonFenceTaken(t: string, i0: nat, j0: nat)
    requires Encloses(t, JsonFence, i0, j0) && t[i0 + |JsonFence|..j0] != ""
    requires forall i: nat, j: nat :: Encloses(t, JsonFence, i, j) ==> i0 < i || (i0 == i && j0 <= j)
    ensures ExtractJson(t) == t[i0 + |JsonFence|..j0]
  {
    FenceMatchIsLeftmostShortest(t, JsonFence);
    var i: nat, j: nat :| Encloses(t, JsonFence, i, j) && FenceMatch(t, JsonFence).value == t[i + |JsonFence|..j]
      && forall i': nat, j': nat :: Encloses(t, JsonFence, i', j') ==> i < i' || (i == i' && j <= j');
    assert i == i0 && j == j0;
  }

  /** With no `json` fence anywhere, the leftmost plain fence, closed at the
      nearest closing fence, gives its body when that is non-empty. */
  lemma PlainFenceFallback(t: string, i0: nat, j0: nat)
    requires forall i: nat, j: nat :: !Encloses(t, JsonFence, i, j)
    requires Encloses(t, PlainFence, i0, j0) && t[i0 + |PlainFence|..j0] != ""
    requires forall i: nat, j: nat :: Encloses(t, PlainFence, i, j) ==> i0 < i || (i0 == i && j0 <= j)
    ensures ExtractJson(t) == t[i0 + |PlainFence|..j0]
  {
    FenceMatchIsLeftmostShortest(t, JsonFence);
    FenceMatchIsLeftmostShortest(t, PlainFence);
    var i: nat, j: nat :| Encloses(t, PlainFence, i, j) && FenceMatch(t, PlainFence).value == t[i + |PlainFence|..j]
      && forall i': nat, j': nat :: Encloses(t, PlainFence, i', j') ==> i < i' || (i == i' && j <= j');
    assert i == i0 && j == j0;
  }

  /** A reply in which neither pattern matches is parsed whole. */
  lemma NoFenceKeepsReply(t: string)
    requires forall i: nat, j: nat :: !Encloses(t, JsonFence, i, j)
    requires forall i: nat, j: nat :: !Encloses(t, PlainFence, i, j)
    ensures ExtractJson(t) == t
  {
    FenceMatchIsLeftmostShortest(t, JsonFence);
    FenceMatchIsLeftmostShortest(t, PlainFence);
  }

  /** A matched fence whose body is empty does not count: the whole reply
      is parsed. This holds when the leftmost-shortest `json` enclosure is
      empty, and when there is no `json` enclosure and the leftmost-shortest
      plain one is empty. */
  lemma EmptyFenceFallsBack(t: string, open: string, i0: nat, j0: nat)
    requires open == JsonFence || (open == PlainFence && forall i: nat, j: nat :: !Encloses(t, JsonFence, i, j))
    requires Encloses(t, open, i0, j0) && j0 == i0 + |open|
    requires forall i: nat, j: nat :: Encloses(t, open, i, j) ==> i0 < i || (i0 == i && j0 <= j)
    ensures ExtractJson(t) == t
  {
    FenceMatchIsLeftmostShortest(t, JsonFence);
    FenceMatchIsLeftmostShortest(t, open);
    var i: nat, j: nat :| Encloses(t, open, i, j) && FenceMatch(t, open).value == t[i + |open|..j]
      && forall i': nat, j': nat :: Encloses(t, open, i', j') ==> i < i' || (i == i' && j <= j');
    assert i == i0 && j == j0;
  }

  /** The smallest instance: a `json` fence closed at once. */
  lemma EmptyJsonFenceExample()
    ensures ExtractJson(JsonFence + CloseFence) == JsonFence + CloseFence
  {
    var t := JsonFence + CloseFence;
    assert OccursAt(t, JsonFence, 0);
    assert OccursAt(t, CloseFence, |JsonFence|);
    assert FindFrom(t, JsonFence, 0) == Some(0);
    assert FindFrom(t, CloseFence, |JsonFence|) == Some(|JsonFence|);
  }

  const ParseFailure: string := "Failed to generate valid assessment content: "

  /** The answer once the model has been asked: a call that threw is a 500,
      a reply whose extracted JSON does not parse is a 500 quoting the whole
      reply, and otherwise the parsed document is sent back. */
  function Respond<T>(reply: Option<string>, parse: string -> Option<T>): (r: HttpResult<T>)
    ensures reply.None? ==> r == Status(500, "Internal Error")
    ensures reply.Some? && parse(ExtractJson(reply.value)).None? ==>
      r == Status(500, ParseFailure + reply.value)
    ensures reply.Some? && parse(ExtractJson(reply.value)).Some? ==>
      r == Ok(parse(ExtractJson(reply.value)).value)
    ensures r.Ok? <==> reply.Some? && parse(ExtractJson(reply.value)).Some?
  {
    match reply
    case None => Status(500, "Internal Error")
    case Some(text) =>
      match parse(ExtractJson(text))
      case None => Status(500, ParseFailure + text)
      case Some(content) => Ok(content)
  }

  /** A request that gets as far as the model: signed in, an instructor, a
      parsed body with a truthy topic and an assessment type. */
  predicate Ready(caller: Caller, body: Option<GenerateRequest>) {
    && caller.userId.Some? && caller.IsInstructor() && body.Some?
    && Truthy(body.value.topic) && body.value.assessmentType.Some?
  }

  /** POST. `body` is the parsed request (`None` if parsing threw),
      `instructions` the text ending the prompt (`Instructions()` in the
      route), `ai` the model (`None` if the call threw) and `parse`
      JSON.parse (`None` if it threw). */
  function Generate<T>(caller: Caller, body: Option<GenerateRequest>, instructions: string,
                       ai: string -> Option<string>, parse: string -> Option<T>): (r: HttpResult<T>)
    ensures caller.userId.None? ==> r == Status(401, "Unauthorized")
    ensures caller.userId.Some? && caller.user.LookupFailed? ==> r == Status(500, "Internal Error")
    ensures caller.userId.Some? && caller.user.Found? && !caller.IsInstructor() ==>
      r == Status(403, "Access denied. Only instructors can generate assessments.")
    ensures caller.userId.Some? && caller.IsInstructor() && body.None? ==> r == Status(500, "Internal Error")
    ensures caller.userId.Some? && caller.IsInstructor() && body.Some? && !Truthy(body.value.topic) ==>
      r == Status(400, "Topic is required")
    ensures (caller.userId.Some? && caller.IsInstructor() && body.Some? && Truthy(body.value.topic)
             && body.value.assessmentType.None?) ==> r == Status(500, "Internal Error")
    ensures Ready(caller, body) ==> r == Respond(ai(Prompt(body.value, instructions)), parse)
  {
    if caller.userId.None? then Status(401, "Unauthorized")
    else if caller.user.LookupFailed? then Status(500, "Internal Error")
    else if !caller.IsInstructor() then Status(403, "Access denied. Only instructors can generate assessments.")
    else if body.None? then Status(500, "Internal Error")
    else
      var req := body.value;
      if !Truthy(req.topic) then Status(400, "Topic is required")
      else if req.assessmentType.None? then Status(500, "Internal Error")
      else
        Respond(ai(Prompt(req, instructions)), parse)
  }
}

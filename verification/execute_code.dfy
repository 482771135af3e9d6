/** Running a code snippet on the Judge0 service
    (app/api/execute-code/route.ts): the language table, the input checks,
    and the choice between the output and the error field. */
module ExecuteCode {
  import opened Common

  /** The own keys of the `languageIds` object and their Judge0 ids. */
  const LanguageIds: map<string, int> := map["python" := 71, "javascript" := 63, "java" := 62, "cpp" := 54]

  /** The methods every plain object inherits from `Object.prototype`;
      reading one of them off `languageIds` yields a function, never
      `undefined`. */
  const PrototypeMethods: set<string> := {
    "constructor", "toString", "toLocaleString", "valueOf", "hasOwnProperty",
    "isPrototypeOf", "propertyIsEnumerable", "__defineGetter__",
    "__defineSetter__", "__lookupGetter__", "__lookupSetter__"}

  /** The accessor whose read yields `Object.prototype` itself, an object. */
  const ProtoName: string := "__proto__"

  /** Every inherited name a property read finds. */
  const PrototypeNames: set<string> := PrototypeMethods + {ProtoName}

  /** What `languageIds[language]` evaluates to. */
  datatype Lookup = LanguageNumber(id: int) | InheritedMethod | InheritedPrototype | Missing

  /** The lookup as written: a property read that also finds inherited
      members. */
  function LookupAsWritten(language: string): (l: Lookup)
    ensures l.LanguageNumber? <==> language in LanguageIds
    ensures l.LanguageNumber? ==> l.id == LanguageIds[language]
    ensures l.InheritedMethod? <==> language !in LanguageIds && language in PrototypeMethods
    ensures l.InheritedPrototype? <==> language == ProtoName
  {
    if language in LanguageIds then LanguageNumber(LanguageIds[language])
    else if language in PrototypeMethods then InheritedMethod
    else if language == ProtoName then InheritedPrototype
    else Missing
  }

  /** `!languageId` is false for a non-zero number and for any function or
      object. */
  predicate PassesGuard(l: Lookup) {
    match l
    case LanguageNumber(id) => id != 0
    case InheritedMethod => true
    case InheritedPrototype => true
    case Missing => false
  }

  /** The `language_id` member of the submitted JSON: a number, left out,
      or the empty object. */
  datatype LanguageField = LanguageIdField(id: int) | NoLanguageField | EmptyObjectField

  /** JSON.stringify writes a number as itself, leaves out a member whose
      value is a function or `undefined`, and writes `Object.prototype`,
      which has no enumerable own properties, as `{}`. */
  function Serialized(l: Lookup): (f: LanguageField)
    ensures f.LanguageIdField? <==> l.LanguageNumber?
    ensures f.LanguageIdField? ==> f.id == l.id
    ensures f.EmptyObjectField? <==> l.InheritedPrototype?
  {
    match l
    case LanguageNumber(id) => LanguageIdField(id)
    case InheritedMethod => NoLanguageField
    case InheritedPrototype => EmptyObjectField
    case Missing => NoLanguageField
  }

  /** The lookup as intended: only the table's own keys are languages. */
  function LanguageId(language: string): (id: Option<int>)
    ensures id.Some? <==> language == "python" || language == "javascript" || language == "java" || language == "cpp"
    ensures language == "python" ==> id == Some(71)
    ensures language == "javascript" ==> id == Some(63)
    ensures language == "java" ==> id == Some(62)
    ensures language == "cpp" ==> id == Some(54)
  {
    if language in LanguageIds then Some(LanguageIds[language]) else None
  }

  /** Different languages run under different Judge0 ids. */
  lemma LanguageIdsDistinct(a: string, b: string)
    requires LanguageId(a).Some? && LanguageId(b).Some? && a != b
    ensures LanguageId(a).value != LanguageId(b).value
  {
  }

  /** The corrected lookup passes the guard for exactly the table's keys. */
  lemma LanguageIdPassesGuard(language: string)
    ensures LanguageId(language).Some? <==> language in LanguageIds
    ensures LanguageId(language).Some? ==> PassesGuard(LookupAsWritten(language))
  {
  }

  /** As written, every inherited name gets past the unsupported-language
      guard although it names no language. */
  lemma PrototypeNamePassesGuard(language: string)
    requires language in PrototypeNames
    ensures PassesGuard(LookupAsWritten(language))
    ensures LanguageId(language).None?
  {
  }

  /** The parsed body; absent fields are `None`. */
  datatype ExecRequest = ExecRequest(language: Option<string>, code: Option<string>)

  /** The submission reply: the call threw, or the `token` it carried. */
  datatype SubmitReply = SubmitThrew | Submitted(token: Option<string>)

  /** The fields of a Judge0 result the handler reads. */
  datatype JudgeResult = JudgeResult(
    statusDescription: Option<string>,
    stdout: Option<string>,
    stderr: Option<string>,
    compileOutput: Option<string>)

  /** The JSON reply: `{ output }` with status 200, or `{ error }` with the
      given status. */
  datatype ExecReply = Output(output: string) | Failure(status: int, error: string)

  /** The choice of reply field from a Judge0 result. */
  function ResultReply(res: JudgeResult): (r: ExecReply)
    ensures res.statusDescription == Some("Accepted") ==>
      r == Output(if Truthy(res.stdout) then res.stdout.value else "No output")
    ensures res.statusDescription != Some("Accepted") ==>
      r == Failure(200, if Truthy(res.stderr) then res.stderr.value
                        else if Truthy(res.compileOutput) then res.compileOutput.value
                        else "Execution error")
  {
    if res.statusDescription == Some("Accepted") then Output(OrElse(res.stdout, "No output"))
    else Failure(200, OrElse(res.stderr, OrElse(res.compileOutput, "Execution error")))
  }

  /** Whatever Judge0 reports, the reply carries a non-empty text. */
  lemma ResultReplyNonEmpty(res: JudgeResult)
    ensures var r := ResultReply(res);
      (r.Output? && r.output != "") || (r.Failure? && r.error != "")
  {
  }

  /** From the submission on: no token is a 500, otherwise the result
      fetched for the token decides. */
  function AfterSubmit(reply: SubmitReply, fetch: string -> Option<JudgeResult>): (r: ExecReply)
    ensures reply.SubmitThrew? ==> r == Failure(500, "Internal server error")
    ensures reply.Submitted? && !Truthy(reply.token) ==> r == Failure(500, "Failed to submit code")
    ensures reply.Submitted? && Truthy(reply.token) ==>
      (fetch(reply.token.value).None? ==> r == Failure(500, "Internal server error"))
      && (fetch(reply.token.value).Some? ==> r == ResultReply(fetch(reply.token.value).value))
  {
    match reply
    case SubmitThrew => Failure(500, "Internal server error")
    case Submitted(token) =>
      if !Truthy(token) then Failure(500, "Failed to submit code")
      else
        match fetch(token.value)
        case None => Failure(500, "Internal server error")
        case Some(res) => ResultReply(res)
  }

  /** Both inputs present and non-empty. */
  predicate HasInput(req: ExecRequest) {
    Truthy(req.language) && Truthy(req.code)
  }

  /** POST with the intended lookup. `body` is `None` when the JSON body
      does not parse; `submit` receives the `language_id` member and the
      source; `fetch` reads the result for a token (`None` when the call
      throws). */
  function Execute(body: Option<ExecRequest>, submit: (LanguageField, string) -> SubmitReply,
                   fetch: string -> Option<JudgeResult>): (r: ExecReply)
    ensures body.None? ==> r == Failure(500, "Internal server error")
    ensures body.Some? && !HasInput(body.value) ==> r == Failure(400, "Language and code are required")
    ensures body.Some? && HasInput(body.value) && LanguageId(body.value.language.value).None? ==>
      r == Failure(400, "Unsupported programming language")
    ensures body.Some? && HasInput(body.value) && LanguageId(body.value.language.value).Some? ==>
      r == AfterSubmit(submit(LanguageIdField(LanguageId(body.value.language.value).value), body.value.code.value), fetch)
  {
    match body
    case None => Failure(500, "Internal server error")
    case Some(req) =>
      if !HasInput(req) then Failure(400, "Language and code are required")
      else
        match LanguageId(req.language.value)
        case None => Failure(400, "Unsupported programming language")
        case Some(id) => AfterSubmit(submit(LanguageIdField(id), req.code.value), fetch)
  }

  /** POST with the lookup as written: an inherited method is submitted
      with no `language_id`, `__proto__` with `{}` as its `language_id`. */
  function ExecuteAsWritten(body: Option<ExecRequest>, submit: (LanguageField, string) -> SubmitReply,
                            fetch: string -> Option<JudgeResult>): (r: ExecReply)
    ensures body.None? ==> r == Failure(500, "Internal server error")
    ensures body.Some? && !HasInput(body.value) ==> r == Failure(400, "Language and code are required")
    ensures body.Some? && HasInput(body.value) ==>
      var language, code := body.value.language.value, body.value.code.value;
      && (language in LanguageIds ==> r == AfterSubmit(submit(LanguageIdField(LanguageIds[language]), code), fetch))
      && (language in PrototypeMethods ==> r == AfterSubmit(submit(NoLanguageField, code), fetch))
      && (language == ProtoName ==> r == AfterSubmit(submit(EmptyObjectField, code), fetch))
      && (language !in LanguageIds && language !in PrototypeNames ==>
            r == Failure(400, "Unsupported programming language"))
  {
    match body
    case None => Failure(500, "Internal server error")
    case Some(req) =>
      if !HasInput(req) then Failure(400, "Language and code are required")
      else
        var l := LookupAsWritten(req.language.value);
        if !PassesGuard(l) then Failure(400, "Unsupported programming language")
        else AfterSubmit(submit(Serialized(l), req.code.value), fetch)
  }

  /** The discrepancy: as written, "constructor" is never refused as an
      unsupported language, while the intended handler refuses it. */
  lemma ConstructorIsNotRefused(code: string, submit: (LanguageField, string) -> SubmitReply,
                                fetch: string -> Option<JudgeResult>)
    requires code != ""
    ensures ExecuteAsWritten(Some(ExecRequest(Some("constructor"), Some(code))), submit, fetch)
         != Failure(400, "Unsupported programming language")
    ensures Execute(Some(ExecRequest(Some("constructor"), Some(code))), submit, fetch)
         == Failure(400, "Unsupported programming language")
  {
    var r := AfterSubmit(submit(NoLanguageField, code), fetch);
    assert r.Output? || r.status == 500 || r.status == 200;
  }

  /** On every request the two handlers agree except for inherited names. */
  lemma AsWrittenAgreesOnOtherNames(body: Option<ExecRequest>, submit: (LanguageField, string) -> SubmitReply,
                                    fetch: string -> Option<JudgeResult>)
    requires body.Some? && body.value.language.Some? ==> body.value.language.value !in PrototypeNames
    ensures ExecuteAsWritten(body, submit, fetch) == Execute(body, submit, fetch)
  {
  }

  /** A request refused by the input checks never reaches Judge0: the
      reply is the same whatever the service does. */
  lemma RefusalsIgnoreJudge(body: Option<ExecRequest>,
                            submit: (LanguageField, string) -> SubmitReply, fetch: string -> Option<JudgeResult>,
                            submit': (LanguageField, string) -> SubmitReply, fetch': string -> Option<JudgeResult>)
    requires body.None? || !HasInput(body.value) || LanguageId(body.value.language.value).None?
    ensures Execute(body, submit, fetch) == Execute(body, submit', fetch')
    ensures Execute(body, submit, fetch).Failure?
    ensures Execute(body, submit, fetch).status in {400, 500}
  {
  }
}

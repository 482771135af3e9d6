# EKlavyaAI LMS core, modelled in Dafny

This project models the server-side logic of the EKlavyaAI learning
platform: course progress and the student dashboard, the teacher's revenue
and assessment analytics, the assessment endpoints (listing, creation,
AI generation), the per-student roll-up, the code-execution endpoint and
the sign-in/role middleware. Every database query, identity-provider call
and external service becomes an input: a sequence of rows, an abstract
caller, or a function parameter standing for the model or the judge. The
caller is the session's optional user id and the outcome of looking up the
user record: the role found in its public metadata, or `LookupFailed` when
that call throws. Any other query or call that throws is an `Option` that
is `None`. The generation endpoint is stated for any instruction text at
the end of the prompt; the route's own text is `GenerateRoute.Instructions`. JavaScript truthiness of an optional string is `Common.Truthy`
(present and non-empty), and `a || b` on strings is `Common.OrElse`.
`Math.round(a / b)` for `a >= 0`, `b > 0` is exact rounding half up,
`Common.RoundDiv(a, b) = (2a + b) div 2b`, specified by the predicate
`RoundsTo(r, a, b)`: `2br <= 2a + b < 2b(r + 1)`.

Files: `common.dfy` (options, HTTP results, rounding, filtering),
`text.dfy` (decimal rendering, ASCII lower-casing, joining, substrings),
`schema.dfy` (the rows), and one file per source module: `progress.dfy`,
`dashboard.dfy`, `analytics.dfy`, `assessment_analytics.dfy`,
`assessments_route.dfy`, `students_route.dfy`, `generate_route.dfy`,
`execute_code.dfy`, `middleware.dfy`.

## Model

| member | source | states |
|---|---|---|
| Progress.PublishedChapterIds | actions/get-progress.ts:10-21 | the ids are exactly those of the course's published chapters |
| Progress.CompletedCount | actions/get-progress.ts:28-36 | the count is zero exactly when no row is this user's, completed, and for a published chapter |
| Progress.Percent | actions/get-progress.ts:39-40 | no chapters gives 0; otherwise the result is 100·K/N rounded half up |
| Progress.GetProgress | actions/get-progress.ts:3-48 | a failed query gives 0, no published chapters gives 0, otherwise round(100·K/N) with K the user's completed rows over published chapters |
| Progress.CompletedCountConcat | actions/get-progress.ts:28-36 | the count over two tables joined is the sum of their counts |
| Progress.IrrelevantRowIgnored | actions/get-progress.ts:29-35 | a row of another user, not completed, or for an unpublished or foreign chapter, inserted anywhere, leaves the percentage unchanged |
| Progress.CountIgnoresAbsentChapter | actions/get-progress.ts:28-36 | dropping a chapter the user has no row for does not change the count |
| Progress.CompletedAtMostChapters | actions/get-progress.ts:28-36 | with at most one row per (user, chapter), K never exceeds the number of chapters |
| Progress.PercentMonotone | actions/get-progress.ts:39-40 | with N fixed, more completed chapters never lowers the percentage |
| Progress.PercentRange | actions/get-progress.ts:39-40 | K ≤ N keeps the result in [0, 100]; K = N > 0 gives 100 and K = 0 gives 0 |
| Progress.ProgressAtMost100 | actions/get-progress.ts:3-48 | over a table keyed by (user, chapter) the percentage never exceeds 100 |
| Progress.ProgressMonotone | actions/get-progress.ts:28-40 | adding progress rows never lowers the percentage |
| Dashboard.PurchasesOf | actions/get-dashboard-progress.tsx:11-27 | exactly this user's purchases, in table order |
| Dashboard.AttachProgress | actions/get-dashboard-progress.tsx:31-39 | one entry per purchase, carrying its course and that course's progress |
| Dashboard.GetDashboardCourses | actions/get-dashboard-progress.tsx:5-64 | a failed query gives two empty lists; otherwise the completed list holds exactly the courses at 100 and the other list exactly those below 100, each in purchase order |
| Dashboard.DashboardPartition | actions/get-dashboard-progress.tsx:43-48 | since progress never exceeds 100, every purchased course lands in exactly one list (as multisets, the two lists together are the courses) |
| Analytics.Names | actions/get-analytics.ts:48-51 | the names of the groups are exactly the names that occur |
| Analytics.AddTo | actions/get-analytics.ts:11-17 | adding a purchase to the grouping keeps one entry per title, adds its title to the names, and raises the grand total by the amount |
| Analytics.AddToTotal | actions/get-analytics.ts:13-16 | the amount is added to its own title's total and to no other title's |
| Analytics.GroupByCourse | actions/get-analytics.ts:8-20 | one group per distinct title; each title's total is the revenue of that title's purchases; the totals sum to the revenue |
| Analytics.TotalForAbsent | actions/get-analytics.ts:8-20 | a title not in the grouping has total 0 |
| Analytics.TotalForMember | actions/get-analytics.ts:48-51 | with one group per title, a group's total is the one looked up for its name |
| Analytics.GroupTotals | actions/get-analytics.ts:47-51 | every entry of `data` holds the revenue of its title, and the entries' names are exactly the purchased titles |
| Analytics.MonthlySales | actions/get-analytics.ts:60-70 | the month's revenue never exceeds the total revenue |
| Analytics.MonthlySalesAllInMonth | actions/get-analytics.ts:64-70 | when every purchase falls in the month, the monthly figure is the whole revenue |
| Analytics.Buyers | actions/get-analytics.ts:73-74 | exactly the purchasers' ids; at most one per purchase, at least one when there is a purchase |
| Analytics.Best | actions/get-analytics.ts:78-83 | the chosen group is in the list, no group has a larger total, and every earlier group has a smaller one (the first of the maxima, as a stable descending sort gives) |
| Analytics.TopPerformingCourse | actions/get-analytics.ts:77-84 | none exactly when there are no groups; otherwise a group of the list whose total no group exceeds |
| Analytics.RecentSales | actions/get-analytics.ts:87-91 | the first min(5, n) purchases, each with its title, creation time and price (0 when null) |
| Analytics.TeacherPurchases | actions/get-analytics.ts:25-37 | exactly the purchases of the teacher's courses, in table order |
| Analytics.GetAnalytics | actions/get-analytics.ts:22-116 | a failed query gives the all-zero report; otherwise `data` holds one group per title (no title twice), the groups match the purchased titles and their revenue, totalRevenue is the revenue, totalSales the purchase count, monthlySales the month's revenue (at most the total), activeStudents the number of distinct purchasers (at most the sales), courseCount the number of the teacher's courses, the top course is absent exactly when there are no purchases and is otherwise a group of `data` with the largest total, and recentSales are the five newest purchases |
| AssessmentAnalytics.DifficultyLabel | actions/get-assessment-analytics.ts:9-16 | 1 is EASY, 3 is HARD, every other integer MEDIUM |
| AssessmentAnalytics.BucketOf | actions/get-assessment-analytics.ts:77 | EASY exactly for level 1 and HARD exactly for level 3; a missing or zero level is MEDIUM |
| AssessmentAnalytics.AverageScore | actions/get-assessment-analytics.ts:32-39 | no sessions gives 0; otherwise the mean score (a null score counting 0) rounded half up |
| AssessmentAnalytics.AverageAtMost | actions/get-assessment-analytics.ts:32-39 | no score above a bound gives no average above it |
| AssessmentAnalytics.ScoreSumAtMost | actions/get-assessment-analytics.ts:35-36 | scores bounded by b sum to at most b times their number |
| AssessmentAnalytics.DisplayName | actions/get-assessment-analytics.ts:42-44 | titles of at most 20 characters are kept; longer ones become their first 20 characters followed by "..." |
| AssessmentAnalytics.DisplayNameIdempotent | actions/get-assessment-analytics.ts:42-44 | shortening a shortened name changes nothing |
| AssessmentAnalytics.AssessmentData | actions/get-assessment-analytics.ts:31-48 | one chart point per assessment, in order, with its shortened title, attempt count and average |
| AssessmentAnalytics.SumConcat | actions/get-assessment-analytics.ts:61-64 | the sum over two joined score lists is the sum of their sums |
| AssessmentAnalytics.SessionScoresSum | actions/get-assessment-analytics.ts:61-64 | the listed scores of an assessment sum to its score sum |
| AssessmentAnalytics.AllScoresShape | actions/get-assessment-analytics.ts:54-64 | the flattened score list has one entry per session and sums to the total score |
| AssessmentAnalytics.OverallAverage | actions/get-assessment-analytics.ts:59-66 | no attempts gives 0; otherwise the total score over the total attempts, rounded half up |
| AssessmentAnalytics.Blend | actions/get-assessment-analytics.ts:78-92 | the bucket count goes up by one; with sessions the new average is round((prev·(count−1) + own) / count), without sessions it stays |
| AssessmentAnalytics.Step | actions/get-assessment-analytics.ts:76-93 | only the assessment's own bucket changes, and its count goes up by one |
| AssessmentAnalytics.Tally | actions/get-assessment-analytics.ts:69-93 | the buckets start empty; each assessment in turn raises its own bucket's count by one and, when it has sessions, makes that bucket's average the rounded weighted mean of the old average and its own; the other buckets keep what they had |
| AssessmentAnalytics.TallyCounts | actions/get-assessment-analytics.ts:69-93 | each bucket counts exactly its own assessments and the three counts add up to the number of assessments |
| AssessmentAnalytics.BlendAtMost | actions/get-assessment-analytics.ts:84-91 | blending an average within a bound into a bucket within it stays within it |
| AssessmentAnalytics.TallyAverageAtMost | actions/get-assessment-analytics.ts:76-93 | no assessment averaging above a bound leaves no bucket averaging above it |
| AssessmentAnalytics.RunningAverageIsOrderDependent | actions/get-assessment-analytics.ts:86-91 | the bucket average depends on the order: averages 1, 0, 0 give 1, while 0, 0, 1 give 0 |
| AssessmentAnalytics.GetAssessmentAnalytics | actions/get-assessment-analytics.ts:18-116 | a failed query gives the empty report; otherwise the teacher's assessments are counted, each gets its chart point in order (shortened title, rounded average, attempt count), attempts are summed, the buckets are the tally of the assessments in order, their counts add up and match the labels, and the overall average is the rounded mean of all sessions |
| AssessmentsRoute.ListAssessments | app/api/assessments/route.ts:7-51 | no user gives 401; a user lookup or query that throws gives 500; success exactly when signed in and both calls succeed, instructors then getting exactly their own assessments and everyone else exactly the published ones, in table order |
| AssessmentsRoute.DifficultyValue | app/api/assessments/route.ts:78-85 | EASY is 1, HARD is 3, every other string 2 |
| AssessmentsRoute.StoredDifficulty | app/api/assessments/route.ts:97 | a missing or empty level is stored as 2, otherwise as its value |
| AssessmentsRoute.LabelValueRoundTrip | app/api/assessments/route.ts:78-85 | the stored value of a label reads back as that label |
| AssessmentsRoute.ValueLabelRoundTrip | app/api/assessments/route.ts:78-85 | a stored value 1, 2 or 3 survives a trip through its label |
| AssessmentsRoute.RowFor | app/api/assessments/route.ts:112-146 | a multiple-choice question is worth d and keeps options and answer; a descriptive one is worth d+1 and takes the sample answer; a practical, viva or pen-and-paper one is worth d+1 with the first non-empty of sample answer, answer and "" |
| AssessmentsRoute.QuestionRows | app/api/assessments/route.ts:110-147 | the rows are the recognised questions, in input order, each mapped as above; other types are skipped |
| AssessmentsRoute.QuestionRowsShape | app/api/assessments/route.ts:110-147 | every row has a known type, the assessment's id and difficulty, and marks d for multiple choice and d+1 otherwise |
| AssessmentsRoute.CreateAssessment | app/api/assessments/route.ts:53-155 | 401 without a user, then 500 if the user lookup throws, 403 for non-instructors, then 500 when the body does not parse, 400 without a title, 500 when the insert throws; success exactly when all checks pass and the insert succeeds, storing the caller as creator, the title, description, assessment type and course id as sent, the mapped difficulty and the inclusivity flag, and creating questions only for AI-generated content with a question list |
| StudentsRoute.NewKeys | app/api/analytics/students/route.ts:41-75 | the map's keys: exactly the ids not already present, each once |
| StudentsRoute.NewKeysInOrder | app/api/analytics/students/route.ts:41-75 | the keys follow first appearance: wherever a later key occurs in the input, every earlier key has already occurred |
| StudentsRoute.NewKeysSubseq | app/api/analytics/students/route.ts:41-75 | the keys are taken from the input in its relative order |
| StudentsRoute.StudentIds | app/api/analytics/students/route.ts:41-78 | distinct ids, exactly those of purchasers and session takers |
| StudentsRoute.StudentIdsInOrder | app/api/analytics/students/route.ts:41-82 | the ids come in first-appearance order over the purchases followed by the sessions |
| StudentsRoute.Roll | app/api/analytics/students/route.ts:82-91 | entry i carries the i-th id, the names "Student i+1" and "student{i+1}@example.com", and the numbers of distinct courses and assessments |
| StudentsRoute.GetStudents | app/api/analytics/students/route.ts:5-98 | no user gives 401; a failed query 500; success exactly when signed in and the queries succeed, with the roll-up over the teacher's purchases and sessions |
| StudentsRoute.RollCoversStudents | app/api/analytics/students/route.ts:41-91 | every purchaser and session taker appears exactly once, and nobody else does |
| StudentsRoute.RollCountsZero | app/api/analytics/students/route.ts:55-74 | a count is zero exactly when the student has no row of that kind |
| StudentsRoute.NamesDistinct | app/api/analytics/students/route.ts:86 | different entries get different names |
| StudentsRoute.EmailsDistinct | app/api/analytics/students/route.ts:87 | different entries get different e-mails |
| GenerateRoute.QuestionTypes | app/api/assessments/generate/route.ts:31 | an array is used as is; a single value becomes the list holding just that value, and an absent one the list holding the empty string |
| GenerateRoute.BuildPrompt | app/api/assessments/generate/route.ts:37-67 | the prompt is the opening with the topic, the context sentence (only for a truthy description), the mode and types, the difficulty and the fixed tail, each at its place |
| GenerateRoute.PromptReflectsRequest | app/api/assessments/generate/route.ts:31-67 | the prompt of a checked request contains its topic, a truthy description, the joined question types and a truthy difficulty lower-cased; an absent or empty difficulty prompts exactly as "MEDIUM" does |
| GenerateRoute.PromptMentions | app/api/assessments/generate/route.ts:37-44 | the topic, a truthy description, the lower-cased difficulty and the joined types all occur in the prompt |
| GenerateRoute.TopicInPrompt | app/api/assessments/generate/route.ts:37 | wherever the opening sentence occurs, the topic occurs |
| GenerateRoute.DescriptionInPrompt | app/api/assessments/generate/route.ts:39-41 | wherever the context sentence of a truthy description occurs, the description occurs |
| GenerateRoute.TypesInPrompt | app/api/assessments/generate/route.ts:43 | wherever the mode sentence occurs, the joined question types occur |
| GenerateRoute.DifficultyInPrompt | app/api/assessments/generate/route.ts:44 | wherever the difficulty sentence occurs, the lower-cased difficulty occurs |
| GenerateRoute.PromptDescription | app/api/assessments/generate/route.ts:39-41 | an empty description gives the same prompt as none; a non-empty one adds exactly its sentence |
| GenerateRoute.FindFrom | app/api/assessments/generate/route.ts:80-81 | the first occurrence at or after a position, or none |
| GenerateRoute.FenceMatch | app/api/assessments/generate/route.ts:80-81 | a capture is shorter than the reply by at least the opening and the closing fence |
| GenerateRoute.FenceMatchIsLeftmostShortest | app/api/assessments/generate/route.ts:80-81 | the fence pattern matches exactly when an opening fence is followed by a closing one, and the capture lies between the leftmost opening and the nearest closing after it |
| GenerateRoute.ExtractJson | app/api/assessments/generate/route.ts:80-84 | the text parsed is empty exactly when the reply is, and a text other than the whole reply is shorter by at least a plain fence and a closing fence |
| GenerateRoute.JsonFenceTaken | app/api/assessments/generate/route.ts:80-84 | the leftmost json fence, closed at the nearest closing fence, gives its non-empty body wherever plain fences are |
| GenerateRoute.PlainFenceFallback | app/api/assessments/generate/route.ts:80-84 | with no json fence, the leftmost plain fence closed at the nearest closing fence gives its non-empty body |
| GenerateRoute.NoFenceKeepsReply | app/api/assessments/generate/route.ts:80-84 | when neither pattern matches, the whole reply is parsed |
| GenerateRoute.ExtractJsonIsSubstring | app/api/assessments/generate/route.ts:80-84 | what is parsed is always a stretch of the reply |
| GenerateRoute.UnfencedReplyKept | app/api/assessments/generate/route.ts:80-84 | a reply without backticks is parsed whole |
| GenerateRoute.JsonFenceRoundTrip | app/api/assessments/generate/route.ts:80-84 | a non-empty body without backticks fenced as json is recovered exactly |
| GenerateRoute.FirstFenceExtracted | app/api/assessments/generate/route.ts:80-84 | a json fence with no earlier opening, and no closing before its own, yields its non-empty body |
| GenerateRoute.EmptyFenceFallsBack | app/api/assessments/generate/route.ts:80-84 | for every reply: when the leftmost-shortest `json` enclosure has an empty body, or there is no `json` enclosure and the leftmost-shortest plain one has an empty body, the whole reply is parsed |
| GenerateRoute.EmptyJsonFenceExample | app/api/assessments/generate/route.ts:84 | the reply made of an opening `json` fence closed at once is parsed whole |
| GenerateRoute.Respond | app/api/assessments/generate/route.ts:72-96 | a model call that throws gives 500 "Internal Error"; a reply whose extracted text does not parse gives 500 with the failure message followed by the whole reply; otherwise the parsed value is sent back |
| GenerateRoute.Generate | app/api/assessments/generate/route.ts:8-98 | 401 without a user, 500 if the user lookup throws, 403 for non-instructors, 500 for an unparseable body, 400 without a topic; a request past the checks is answered as above for the model's reply to its prompt |
| ExecuteCode.LanguageId | app/api/execute-code/route.ts:7-12 | python is 71, javascript 63, java 62, cpp 54, and no other name is a language |
| ExecuteCode.LanguageIdsDistinct | app/api/execute-code/route.ts:7-12 | different languages have different ids |
| ExecuteCode.LookupAsWritten | app/api/execute-code/route.ts:25 | the table's keys give their ids, inherited method names a function, `__proto__` the prototype object, everything else nothing |
| ExecuteCode.Serialized | app/api/execute-code/route.ts:42-46 | the submitted `language_id` is the number for a table id, `{}` for the prototype object, and left out for a function or nothing |
| ExecuteCode.PrototypeNamePassesGuard | app/api/execute-code/route.ts:25-32 | as written, every inherited name passes the unsupported-language check although it is no language |
| ExecuteCode.LanguageIdPassesGuard | app/api/execute-code/route.ts:25-32 | the intended lookup finds exactly the table's keys, all of which pass the check |
| ExecuteCode.ResultReply | app/api/execute-code/route.ts:74-80 | Accepted gives the output, or "No output" if empty; otherwise the error is the first non-empty of stderr, compile output and "Execution error" |
| ExecuteCode.ResultReplyNonEmpty | app/api/execute-code/route.ts:74-80 | the reply always carries a non-empty text |
| ExecuteCode.AfterSubmit | app/api/execute-code/route.ts:35-80 | no token gives 500 "Failed to submit code"; a throwing call gives 500; otherwise the fetched result decides |
| ExecuteCode.Execute | app/api/execute-code/route.ts:14-88 | an unparseable body gives 500; missing input 400; an unknown language 400 before anything is submitted; otherwise the submission of the language id and code decides |
| Common.FilterMultiset | app/api/assessments/route.ts:24-44 | a filtered table keeps every copy of a row that passes the test and none of a row that fails it |
| ExecuteCode.ExecuteAsWritten | app/api/execute-code/route.ts:14-88 | as written: an unparseable body gives 500, missing input 400; a table key is submitted with its id, an inherited method name with no language id, `__proto__` with `{}` as its language id, and any other name is refused with 400 |
| ExecuteCode.ConstructorIsNotRefused | app/api/execute-code/route.ts:25-32 | "constructor" with code is never refused as unsupported as written, and is refused by the intended handler |
| ExecuteCode.AsWrittenAgreesOnOtherNames | app/api/execute-code/route.ts:25-32 | on every other request the two handlers agree |
| ExecuteCode.RefusalsIgnoreJudge | app/api/execute-code/route.ts:16-32 | a request refused by the checks gets a 400 or 500 that does not depend on the judge |
| Middleware.Decide | middleware.ts:25-59 | sign-in redirect exactly for a signed-in user whose lookup fails or a signed-out user off a public route; home redirect exactly for a signed-in non-instructor on an instructor route; otherwise pass |
| Middleware.SignedOutNeverSentHome | middleware.ts:29-46 | a signed-out user never gets the home redirect, and no lookup affects them |
| Middleware.InstructorsPass | middleware.ts:38-41 | an instructor whose lookup succeeds always passes |
| Middleware.FailedLookupBlocksPublic | middleware.ts:42-45 | a failed lookup redirects to sign in even on a public route |

## Left out

- Database and ORM queries, the identity provider, the Gemini model and the Judge0 service are inputs: row sequences, an abstract caller, and function parameters. A user-record lookup that throws is `LookupFailed`; any other call that throws is a `None`.
- The `updateUser` write-back in the middleware has no logic and is not modelled. A failure there counts as a failed lookup, just as it does in the source.
- The route matchers (`createRouteMatcher` patterns) are library code and are taken as the booleans `isPublic` and `isInstructorRoute`.
- `JSON.parse` on the model's reply is the `parse` parameter. The request bodies arrive already parsed, with `None` standing for a body that failed to parse.
- `JSON.stringify` of `questionFormat` when it is stored is not modelled. The stored assessment row omits that field.
- Question rows are created one at a time in the source and are not atomic with the assessment insert. The model returns them all, with no partial failure.
- The 2-second wait before fetching a Judge0 result is not modelled.
- Floating point is not modelled. `Math.round(a/b)` is exact rounding half up on integers, and scores and prices are non-negative integers.
- Calendar dates and time zones are not modelled. Each purchase carries its year and month as integers, and the current month is passed in.
- `Analytics.Amount`: a null price adds 0, which is what JavaScript does at run time (`x + null` is `x`). A non-null price is not made a precondition, because the `!` in `price!` only silences the type checker.
- `Analytics.GetAnalytics`: the groups are kept in order of first purchase.
  - `Object.entries` lists integer-like titles first. Because of that, the contracts never rely on the order, and the top course is only said to be a maximal group.
  - A title such as "constructor", which plain objects inherit, is not modelled in `groupByCourse`.
- `Dashboard.GetDashboardCourses`: every course's progress is read from one snapshot of the chapter and progress tables.
- AssessmentAnalytics.DisplayName: lengths are counted in Unicode scalar values, while JavaScript's `length` and `substring` count UTF-16 code units. A title with characters outside the Basic Multilingual Plane is therefore cut later in the model than in the source: 11 emoji (22 code units) are kept whole here but become 10 emoji and "..." in the source. A cut through a surrogate pair cannot be represented as a Dafny string and is not modelled.
- `Text.ToLower` lowers ASCII letters only. Unicode case mapping is not modelled.
- `GenerateRoute.QuestionTypes`: array elements are taken to be strings, and a non-string single value is not modelled.
- `ExecuteCode.Execute`: a non-string `language` or `code` is not modelled.
- UI components, the chatbot routes, upload configuration and the published-assessments route are not part of this model.

## Findings

| source | as written | input that shows it | evidently intended | confidence | as-written member | corrected member |
|---|---|---|---|---|---|---|
| app/api/execute-code/route.ts:25-32 | `languageIds[language]` is a plain property read. Names inherited from `Object.prototype` therefore yield a function, or for `__proto__` the prototype object. Both pass the `!languageId` guard, and the code goes to Judge0 with no `language_id`, or with `"language_id":{}` for `__proto__` | `{ "language": "constructor", "code": "print(1)" }` | 400 "Unsupported programming language" for every name outside the four table keys | not executed | ExecuteCode.ExecuteAsWritten (shown by ExecuteCode.ConstructorIsNotRefused) | ExecuteCode.Execute |

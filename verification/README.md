# Quiz assignment, scoring and leaderboards — a Dafny model

This project models the logic of a classroom physics quiz application
(`app/routes.py`). A professor assigns a student a timed test of twelve
questions, four from each of the domains Cinematica, Dinamica and Statica, at
one difficulty. The student submits answers, possibly several times, until a
final submission completes the test. Completed tests feed a per-student page
and a global leaderboard ranked by average score, with the grade shown as
average / 12 × 10.

The model is arranged by the program's own structure:

- `records.dfy` has the question and test documents, the fixed constants and the shape every stored test keeps.
- `assignment.dfy` models the dashboard's assignment logic: form validation, eligibility, the short-domain failure, what a valid selection is, and `random.sample` / `random.shuffle`. The random index is a free choice.
- `text.dfy` models Python's `str.strip()` over the characters `str.isspace()` accepts.
- `quiz.dfy` models the quiz handler for one document: remaining time, merging, rescoring, completion and the response.
- `store.dfy` models the test collection as a class holding a sequence of documents; documents are appended or replaced in place, never deleted. Its methods `CreateTest` and `Quiz` are the two state-changing handlers, with the selection loop and the score loop as loops.
- `leaderboard.dfy` covers the student page (the handler and its PDF twin) and the global pipeline `$match` → `$group`/`$avg`/`$sum` → `$sort` → grade loop. `leaderboard_examples.dfy` works a small store through both.
- `access.dfy` models the `role_required` test.
- `seqs.dfy` and `common.dfy` hold generic helpers: filter, multiset facts, stable insertion sort, `Option` and `Result`.

Where the program draws on things outside it, the model takes them as parameters:

- the clock is an integer `now`, in seconds;
- the uuid4 test id is a parameter `newId` that must not be in the store yet;
- the random positions chosen by `random.sample` and `random.shuffle` are nondeterministic choices (`:|`).

Averages use Dafny's exact `real`s.

## What the code does and does not do

- `professor_dashboard` does not check that the difficulty is one of the known levels or that the student exists. `CreateTest` accepts any non-empty name and difficulty.
- It does not exclude questions the student has already seen, and it does not refuse a second test for the same student.
- `quiz` rescores the merged answers on every POST, not only on the final one. `Submit` does the same.
- `quiz` does not enforce the deadline: a POST after `expires_at` is scored and stored. `Quiz.LateSubmissionAccepted` states this.
- Selected questions have distinct ids because MongoDB keeps `_id` unique in every collection, so the question bank's ids are distinct. `Assignment.SelectionHasNoRepeats` takes that as its premise.
- Lines 245 and 271 of `app/routes.py` have one space too many of indentation, which Python would reject. The model follows the evident intent: a grade is added to every group.

## Model

| member | source | states |
|---|---|---|
| Access.RoleRequired | app/routes.py:18-25 | a request proceeds only for an authenticated user, and for an authenticated user exactly when the role is the one required |
| Access.ProfessorPagesAdmitOnlyProfessors | app/routes.py:37 | the pages guarded by `role_required('profesor')` admit exactly authenticated users whose role is `profesor`; a user without a role is refused |
| Access.OneRoleAtATime | app/routes.py:23 | a minor corollary of the guard: no user passes it for two different roles |
| Assignment.Missing | app/routes.py:46 | defined by its body: a form field that is absent or empty fails the `not` test; `Store.TestStore.CreateTest` refuses with `MissingFields` exactly then |
| Assignment.Eligible | app/routes.py:60 | defined by its body as the question `find` by domain and difficulty, in bank order; `Assignment.ShortDomain` and `Store.SampleFromDomain` use it |
| Assignment.ShortDomain | app/routes.py:59-63 | the first domain with fewer than four eligible questions is found exactly when some domain is short, and it is one of the domains and short |
| Assignment.NewTestRecord | app/routes.py:70-82 | defined by its body as the fields of the inserted document; `Store.TestStore.CreateTest` appends a document satisfying it |
| Assignment.NewTestIsWellFormed | app/routes.py:70-82 | a new document over a valid selection is well formed: twelve questions, no answers, no score, not completed, expiry ten minutes after creation |
| Assignment.SelectionHasNoRepeats | app/routes.py:59-66 | with unique ids in the bank, no question appears twice in a valid selection |
| Assignment.ValidSelectionPermutation | app/routes.py:66 | a rearrangement of a valid selection is still valid (twelve questions, four per domain, right difficulty, drawn from the bank) |
| Assignment.Refusal | app/routes.py:46-63 | defined by its body: missing fields first, then the first short domain; `Store.TestStore.CreateTest` refuses exactly when it is `Some` and with its error |
| Assignment.EligibleInStep | app/routes.py:59-60 | the questions eligible for the first i+1 domains are those of the first i plus those of domain i |
| Assignment.Sample | app/routes.py:64 | `random.sample`: k elements drawn without replacement, a sub-multiset of the population of exactly k elements |
| Assignment.Shuffle | app/routes.py:66 | `random.shuffle` in place: the array's contents are a permutation of what they were |
| Assignment.Shuffled | app/routes.py:66 | the shuffled list has the same length and the same elements as the selected one |
| Store.Position | app/routes.py:106 | the found position holds a document with the id; no position means no document has it |
| Store.TestStore.constructor | app/__init__.py:34 | the test collection `db["Tests"]` starts empty and is valid |
| Store.TestStore.Find | app/routes.py:106 | `find_one` by id: the loop returns the position of the document with that id, and with unique ids no other position holds it |
| Store.TestStore.CreateTest | app/routes.py:40-83 | refuses exactly when a field is missing or a domain is short, with that error and the store unchanged; otherwise appends one fresh, well-formed document with a valid selection and returns its id, keeping ids unique |
| Store.TestStore.Quiz | app/routes.py:100-157 | a missing id or an unknown test changes nothing; otherwise the response and the document written back are those of `HandleQuiz`, in place, and the store stays valid |
| Store.SelectQuestions | app/routes.py:55-66 | fails exactly when some domain is short, naming the first short domain; otherwise returns a valid selection |
| Store.AppendFresh | app/routes.py:69-83 | appending a document with an unused id keeps ids unique and documents well formed |
| Store.SelectionStep | app/routes.py:59-64 | one pass of the domain loop keeps four questions per visited domain, at the difficulty, drawn from the eligible ones |
| Store.SelectionComplete | app/routes.py:59-66 | after the three domains, the accumulated list is a valid selection |
| Store.MembersStep | app/routes.py:64 | appending a domain's sample keeps every question at the difficulty and within the visited domains |
| Store.SampleFromDomain | app/routes.py:60-64 | every sampled question has the domain and difficulty it was queried for |
| Store.DomainCounts | app/routes.py:59-64 | after adding a domain's four questions, every visited domain has exactly four |
| Quiz.TimeLeft | app/routes.py:110-113 | remaining time is zero exactly at or after expiry, otherwise now plus it is the expiry; at most ten minutes for a well-formed test once the clock has reached its creation |
| Quiz.Merge | app/routes.py:121-123 | every submitted key takes the submitted value and every other stored key keeps its value |
| Quiz.Correct | app/routes.py:127-130 | defined by its body: the question's id is answered and the stripped answer equals the stripped expected one; counted by `Quiz.ScoreCountsCorrectAnswers` |
| Quiz.Score | app/routes.py:125-130 | the score is between 0 and the number of questions |
| Quiz.ScoreCountsCorrectAnswers | app/routes.py:125-130 | the score is the number of questions whose id has an answer equal to the expected one after stripping both |
| Quiz.CorrectPositionsStep | app/routes.py:127-130 | the correctly answered positions grow by the last question exactly when it is correct |
| Quiz.ScoreAnswers | app/routes.py:126-130 | the score loop computes the score |
| Quiz.Submit | app/routes.py:119-141 | after a POST: answers merged, score recomputed from them, completed exactly when the form's `completed` is `'true'`, a completion time exactly then, other fields untouched, well-formedness kept |
| Quiz.Finalises | app/routes.py:133 | defined by its body: the form's `completed` field is `'true'`; `Quiz.Submit` completes the test exactly then |
| Quiz.HandleQuiz | app/routes.py:110-157 | a completed test is returned unchanged with its score; a GET on an open test changes nothing and shows its questions, student, id and `TimeLeft`; a POST stores `Submit`'s result and answers finalized or saved |
| Quiz.ResubmitIsIdempotent | app/routes.py:121-130 | resubmitting the same form gives the same answers and the same score |
| Quiz.PartialSaveIsIdempotent | app/routes.py:119-148 | repeating a partial save leaves the document and the response as the first save did |
| Quiz.FinalisesOnce | app/routes.py:115-117 | a finalising POST completes the test at `now`, and every later request is refused without change |
| Quiz.LateSubmissionAccepted | app/routes.py:110-141 | after expiry the time left is zero, yet a POST is still scored and stored |
| Quiz.ScoringExample | app/routes.py:129 | expected "5" and "Newton" against " 5 " and "newton" score 1: stripped, case-sensitive |
| Text.IsSpace | app/routes.py:129 | defined by its body as the 29 code points `str.isspace()` accepts (the Unicode White_Space characters plus the separators U+001C–U+001F), the characters `.strip()` removes; used by `Text.TrimStartSpec` and `Text.TrimEndSpec` |
| Text.Trim | app/routes.py:129 | defined by its body as `str.strip()`; characterised by `Text.TrimOfPadded`, `Text.TrimDecomposes` and `Text.TrimIdempotent` |
| Text.TrimStartSpec | app/routes.py:129 | stripping the front drops only whitespace and leaves an empty string or one starting with a non-space |
| Text.TrimEndSpec | app/routes.py:129 | stripping the back drops only whitespace and leaves an empty string or one ending with a non-space |
| Text.TrimOfPadded | app/routes.py:129 | whitespace around a core without outer whitespace is exactly what strip removes |
| Text.TrimDecomposes | app/routes.py:129 | every string is its stripped form padded with whitespace |
| Text.TrimIdempotent | app/routes.py:129 | stripping twice is stripping once |
| Text.TrimIgnoresPadding | app/routes.py:129 | extra whitespace around an answer does not change its stripped form |
| Records.WellFormed | app/routes.py:70-82 | defined by its body: twelve questions, expiry ten minutes after creation, a completion time exactly when completed, a score when completed and never above the question count; kept by `Assignment.NewTestIsWellFormed`, `Quiz.Submit` and `Store.TestStore.Valid` |
| Records.DomainsAreDistinct | app/routes.py:55 | the three domains are distinct and four per domain makes twelve |
| Leaderboard.LeaderboardStudent | app/routes.py:167-183 | exactly the student's completed, scored tests, each as often as stored, latest completion first; average = mean of their scores (0 if none), grade = average/12·10 |
| Leaderboard.Qualifies | app/routes.py:169-170 | defined by its body: completed and with a score; the filter behind `Leaderboard.StudentTestsMultiplicity` and `Leaderboard.GlobalEntryIffQualifyingTest` |
| Leaderboard.Matched | app/routes.py:234 | defined by its body as the `$match` stage; characterised by `Leaderboard.StudentTestsMultiplicity` |
| Leaderboard.OfStudent | app/routes.py:168 | defined by its body as the `student_name` filter; characterised by `Leaderboard.OfStudentMultiplicity` |
| Leaderboard.ScoreOf | app/routes.py:180 | defined by its body: a test's score, 0 when it has none |
| Leaderboard.TotalScore | app/routes.py:180 | defined by its body as the `sum(...)` of scores; characterised by `Leaderboard.TotalScoreConcat`, `Leaderboard.TotalScorePermutation` and `Leaderboard.TotalScoreBound` |
| Leaderboard.CompletedNoEarlier | app/routes.py:171 | defined by its body as `.sort("completed_at", -1)`'s order, a missing time last; a total preorder by `Leaderboard.CompletionOrderIsTotal` |
| Leaderboard.StudentTests | app/routes.py:167-170 | defined by its body as the `find` filter; characterised by `Leaderboard.StudentTestsMultiplicity` |
| Leaderboard.Mean | app/routes.py:175-182 | defined by its body: the sum of scores over the count, 0 with no tests; bounded by `Leaderboard.MeanBounds` |
| Leaderboard.Grade | app/routes.py:183 | defined by its body: average / 12 × 10; bounded by `Leaderboard.GradeBounds` |
| Leaderboard.PageAverages | app/routes.py:175-183 | defined by its body as the page's arithmetic; `Leaderboard.PdfAgreesWithPage` shows it gives the mean and its grade |
| Leaderboard.PdfAverages | app/routes.py:302-305 | defined by its body as the PDF's arithmetic; `Leaderboard.PdfAgreesWithPage` shows it equals the page's |
| Leaderboard.StudentTestsMultiplicity | app/routes.py:167-171 | the query returns each of the student's completed, scored tests as often as the store holds it, and nothing else |
| Leaderboard.CompletionOrderIsTotal | app/routes.py:171 | the descending `completed_at` order is a total preorder |
| Leaderboard.TotalScorePermutation | app/routes.py:180 | the sum of scores does not depend on the order of the tests |
| Leaderboard.TotalScoreConcat | app/routes.py:180 | the sum over two lists is the sum of the sums |
| Leaderboard.TotalScoreRemove | app/routes.py:180 | removing one test removes its score from the sum |
| Leaderboard.TotalScoreBound | app/routes.py:180 | tests of at most m points sum to at most m per test |
| Leaderboard.MeanBounds | app/routes.py:180-183 | for well-formed tests the average lies in [0, 12] and the grade in [0, 10] |
| Leaderboard.RatioBounds | app/routes.py:180-182 | a total of at most m per test, divided by the number of tests, is between 0 and m |
| Leaderboard.GradeBounds | app/routes.py:183 | an average between 0 and 12 gives a grade between 0 and 10 |
| Leaderboard.PdfAgreesWithPage | app/routes.py:302-305 | the PDF's arithmetic gives the same average and grade as the page's, namely the mean and its grade |
| Leaderboard.Accumulate | app/routes.py:235-238 | defined by its body as the `$group` running state; characterised by `Leaderboard.AccumulateAt` |
| Leaderboard.Groups | app/routes.py:234-239 | defined by its body as the `$match`/`$group` output; characterised by `Leaderboard.GroupsSpec` |
| Leaderboard.GroupOf | app/routes.py:235-238 | defined by its body as the `$group` document for a name; characterised by `Leaderboard.GroupOfStatistics` |
| Leaderboard.HigherAverage | app/routes.py:240 | defined by its body as the `$sort` key, descending average; a total preorder by `Leaderboard.AverageOrderIsTotal` |
| Leaderboard.WithGrade | app/routes.py:246 | defined by its body: the group with `average_grade` = average / 12 × 10 added |
| Leaderboard.Graded | app/routes.py:245-246 | defined by its body as the grade loop over all groups; `Leaderboard.AddGrades` computes it and `Leaderboard.GradedNames` keeps the names |
| Leaderboard.Ranked | app/routes.py:240 | defined by its body as the stable sort by average; characterised by `Leaderboard.RankedStatistics` and `Leaderboard.GlobalSortedByAverage` |
| Leaderboard.GlobalLeaderboard | app/routes.py:233-246 | defined by its body as the pipeline plus the grade loop; characterised by `Leaderboard.GlobalEntryStatistics`, `Leaderboard.GlobalSortedByAverage`, `Leaderboard.GlobalEntryIffQualifyingTest` and `Leaderboard.GlobalOneEntryPerStudent` |
| Leaderboard.Names | app/routes.py:235-236 | the group keys: distinct names, exactly the student names occurring in the matched tests |
| Leaderboard.OfStudentMultiplicity | app/routes.py:236 | a group holds each of its student's tests as often as the matched tests do |
| Leaderboard.AccumulateAt | app/routes.py:237-238 | the running `$avg`/`$sum` state has a student exactly when they have a matched test, holding the sum and the number of their tests |
| Leaderboard.AccumulateOwnTest | app/routes.py:237-238 | a test of the student adds its score and one to their accumulated pair |
| Leaderboard.AccumulateOtherTest | app/routes.py:237-238 | a test of another student leaves this student's accumulated pair unchanged |
| Leaderboard.NamesPresent | app/routes.py:235-236 | a name is a group key exactly when that student has a matched test |
| Leaderboard.GroupOfStatistics | app/routes.py:235-238 | the group of a present student carries their test count (at least 1) and their mean score |
| Leaderboard.GroupsSpec | app/routes.py:234-239 | the `$match`/`$group` output has one group per student, each with that student's count and mean |
| Leaderboard.AverageOrderIsTotal | app/routes.py:240 | ordering by average is a total preorder |
| Leaderboard.AddGrades | app/routes.py:245-246 | the loop adds to each group its grade, average/12·10, in order |
| Leaderboard.GlobalOneEntryPerStudent | app/routes.py:233-246 | no student has two rows |
| Leaderboard.PermutedNames | app/routes.py:240 | sorting keeps the set of names |
| Leaderboard.GradedNames | app/routes.py:245-246 | adding grades keeps the names |
| Leaderboard.GroupNames | app/routes.py:235-236 | the groups carry exactly the group keys |
| Leaderboard.GlobalEntryIffQualifyingTest | app/routes.py:233-246 | a student has a row exactly when they have a completed, scored test |
| Leaderboard.GlobalEntryStatistics | app/routes.py:233-246 | each row's count is the student's number of completed, scored tests (≥ 1), its average their mean, its grade average/12·10 |
| Leaderboard.RankedStatistics | app/routes.py:234-240 | after sorting, every group still carries its student's count and mean |
| Leaderboard.GlobalSortedByAverage | app/routes.py:240 | rows are in non-increasing order of average |
| Leaderboard.GlobalAgreesWithStudent | app/routes.py:167-183 | a student's row shows the same average, grade and count as the student's own page |
| Leaderboard.GlobalBounds | app/routes.py:233-246 | over well-formed documents every average is in [0, 12] and every grade in [0, 10] |
| LeaderboardExamples.StudentExample | app/routes.py:167-183 | A's page, for scores 8 (earlier) and 10 (later) and an open test: the two tests latest first, average 9, grade 7.5 |
| LeaderboardExamples.GlobalExample | app/routes.py:233-246 | for A: 8, A: 10, B: 6 and an open test of A, the rows are A (9, 2 tests, 7.5), then B (6, 1 test, 5) |
| LeaderboardExamples.ExampleGroups | app/routes.py:234-239 | the groups of that store are A (9, 2) and B (6, 1) |

## Left out

- Flask routing is not modelled: redirects, `flash`, `render_template`, `url_for`, HTTP status strings and the `take_test` and `home` redirects. Failures are error values or an unchanged store.
- A missing collection in the configuration (the 500 responses) is not modelled; the collection is always there.
- Login and sessions are not modelled: `login_required`, `login`, `logout` and `load_user`. They are calls into Flask-Login and password hashing. `login_required` runs before `role_required`, so an anonymous user is sent to the login page before the role test is reached.
- `abort(403)` is `Forbidden`. The model does not wrap the handlers in the guard.
- The MongoDB connection is not modelled, nor the query engine itself. `find`, `$match`, `$group`, `$avg`, `$sum` and `$sort` are modelled by their meaning over an in-memory sequence.
- The PDF rendering (`xhtml2pdf`, `BytesIO`, response headers) is left out. It is output through a library that is not part of this model. The PDF handlers' arithmetic is modelled.
- Concurrent submissions to one test, and their lost updates, are left out. The model is single-threaded.
- `datetime.utcnow()` is called twice when a test is created (lines 78 and 81). The model uses one `now` for both, so the expiry is exactly ten minutes after creation. `quiz` also reads the clock twice: for the time left (line 111) and for `completed_at` (line 139). The model uses one `now` for both in `Quiz.HandleQuiz` and `Store.TestStore.Quiz`.
- Times are whole seconds, so the truncation by `int(time_left)` is not modelled.
- Averages are exact rationals, not IEEE floats. Rounding in `/ count` and `/ 12 * 10` is not modelled.
- Leaderboard.Ranked: the order among students with equal averages is fixed by a stable insertion sort. Mongo leaves it unspecified, so no lemma claims anything about it.
- Leaderboard.Groups: the model emits the `$group` output in order of each student's first matched test. MongoDB promises no order for `$group`. `Leaderboard.Names`, `Leaderboard.GroupsSpec` and `LeaderboardExamples.ExampleGroups` state this order. After `$sort`, it decides only the order among equal averages.
- Leaderboard.CompletedNoEarlier: a test without `completed_at` sorts last. For well-formed completed tests this never happens.
- `app/models.py` is not part of this model. It is a record wrapper with no logic. `Access.Principal` stands for the current user.
- The dashboard's GET (an empty page) and the rendered page contents are not modelled.

## Findings

None: the model follows the code as written.

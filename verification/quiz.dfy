/**
 * The quiz handler's logic for one test document (`quiz`, app/routes.py:100-157):
 * remaining time, the frozen state of a completed test, merging a submission
 * into the stored answers, rescoring, and completion.
 */
module Quiz {
  import opened Common
  import opened Text
  import opened Records

  /** A GET shows the quiz; a POST carries the submitted form fields (`request.form.to_dict(flat=True)`). */
  datatype Request = Get | Post(form: map<string, string>)

  /** What the handler answers, without the HTTP and template plumbing. */
  datatype Response =
    | MissingTestId                       // app/routes.py:102-103
    | TestNotFound                        // app/routes.py:107-108
    | AlreadyCompleted(score: Option<nat>) // app/routes.py:116-117
    | Finalized(studentName: string)      // app/routes.py:143-145, redirect to the student's leaderboard
    | SavedPartial                        // app/routes.py:146-148
    | ShowQuiz(questions: seq<Question>, studentName: string, testId: string, timeLeft: nat) // app/routes.py:151-157

  /** Seconds until expiry, floored at zero (app/routes.py:111-113). */
  function TimeLeft(t: Test, now: int): (r: nat)
    ensures r == 0 <==> now >= t.expiresAt
    ensures r > 0 ==> now + r == t.expiresAt
    ensures WellFormed(t) && now >= t.createdAt ==> r <= TestDuration
  {
    var left := t.expiresAt - now;
    if left < 0 then 0 else left
  }

  /** `answers.update(user_answers)`: the submission wins on every key it carries. */
  function Merge(answers: map<string, string>, form: map<string, string>): (r: map<string, string>)
    ensures r.Keys == answers.Keys + form.Keys
    ensures forall k :: k in form ==> r[k] == form[k]
    ensures forall k :: k in answers && k !in form ==> r[k] == answers[k]
  {
    answers + form
  }

  /** Question `q` is answered, and the answer matches after trimming both sides (case-sensitive). */
  predicate Correct(q: Question, answers: map<string, string>) {
    q.id in answers && Trim(answers[q.id]) == Trim(q.answer)
  }

  /** The number of correctly answered questions. */
  function Score(qs: seq<Question>, answers: map<string, string>): (r: nat)
    ensures r <= |qs|
  {
    if qs == [] then 0
    else Score(qs[..|qs| - 1], answers) + (if Correct(qs[|qs| - 1], answers) then 1 else 0)
  }

  /** The positions of `qs` holding a correctly answered question. */
  function CorrectPositions(qs: seq<Question>, answers: map<string, string>): set<nat> {
    set i: nat | i < |qs| && Correct(qs[i], answers)
  }

  /** The correct positions of `qs` are those of its prefix, plus the last one if it is correct. */
  lemma CorrectPositionsStep(qs: seq<Question>, answers: map<string, string>)
    requires qs != []
    ensures var n := |qs| - 1;
      CorrectPositions(qs, answers)
        == CorrectPositions(qs[..n], answers) + (if Correct(qs[n], answers) then {n} else {})
  {
    var n := |qs| - 1;
    var init := qs[..n];
    forall i: nat | i < n ensures init[i] == qs[i] {
    }
  }

  /** The score is the number of questions answered correctly. */
  lemma {:induction false} ScoreCountsCorrectAnswers(qs: seq<Question>, answers: map<string, string>)
    ensures Score(qs, answers) == |CorrectPositions(qs, answers)|
  {
    if qs == [] {
      assert CorrectPositions(qs, answers) == {};
    } else {
      var n := |qs| - 1;
      ScoreCountsCorrectAnswers(qs[..n], answers);
      CorrectPositionsStep(qs, answers);
      assert n !in CorrectPositions(qs[..n], answers);
    }
  }

  /** The score loop of app/routes.py:126-130: one point per correctly answered question. */
  method ScoreAnswers(qs: seq<Question>, answers: map<string, string>) returns (score: nat)
    ensures score == Score(qs, answers)
  {
    score := 0;
    for i := 0 to |qs|
      invariant score == Score(qs[..i], answers)
    {
      assert qs[..i + 1][..i] == qs[..i];
      var qid := qs[i].id;
      if qid in answers && Trim(answers[qid]) == Trim(qs[i].answer) {
        score := score + 1;
      }
    }
    assert qs[..|qs|] == qs;
  }

  /** The form finalises the test: `request.form.get('completed') == 'true'`. */
  predicate Finalises(form: map<string, string>) {
    "completed" in form && form["completed"] == "true"
  }

  /**
   * The document after a POST to a test that is not yet completed
   * (app/routes.py:121-141): every form field is merged into the answers,
   * `completed` included, the score is recomputed from the merged answers,
   * and completion follows the form.
   */
  function Submit(t: Test, form: map<string, string>, now: int): (r: Test)
    ensures r.answers == Merge(t.answers, form)
    ensures r.score.Some? && r.score.value == |CorrectPositions(t.questions, r.answers)| <= |t.questions|
    ensures r.completed <==> Finalises(form)
    ensures r.completedAt.Some? <==> r.completed
    ensures r.completedAt.Some? ==> r.completedAt.value == now
    ensures r.id == t.id && r.studentName == t.studentName && r.difficulty == t.difficulty
    ensures r.questions == t.questions && r.createdAt == t.createdAt && r.expiresAt == t.expiresAt
    ensures WellFormed(t) ==> WellFormed(r)
  {
    var merged := Merge(t.answers, form);
    var completed := Finalises(form);
    ScoreCountsCorrectAnswers(t.questions, merged);
    t.(answers := merged,
       score := Some(Score(t.questions, merged)),
       completed := completed,
       completedAt := if completed then Some(now) else None)
  }

  /**
   * The handler on a test document that was found: the response and the
   * document as stored afterwards.
   */
  function HandleQuiz(t: Test, req: Request, now: int): (r: (Response, Test))
    ensures t.completed ==> r == (AlreadyCompleted(t.score), t)
    ensures req.Get? ==> r.1 == t
    ensures !t.completed && req.Get? ==> r.0 == ShowQuiz(t.questions, t.studentName, t.id, TimeLeft(t, now))
    ensures !t.completed && req.Post? ==> r.1 == Submit(t, req.form, now)
    ensures !t.completed && req.Post? ==> (r.0 == if Finalises(req.form) then Finalized(t.studentName) else SavedPartial)
    ensures WellFormed(t) ==> WellFormed(r.1)
  {
    var timeLeft := TimeLeft(t, now);
    if t.completed then (AlreadyCompleted(t.score), t)
    else match req
      case Post(form) =>
        var u := Submit(t, form, now);
        (if u.completed then Finalized(t.studentName) else SavedPartial, u)
      case Get => (ShowQuiz(t.questions, t.studentName, t.id, timeLeft), t)
  }

  /** Submitting the same answers again yields the same answers and the same score. */
  lemma ResubmitIsIdempotent(t: Test, form: map<string, string>, now: int, later: int)
    ensures Submit(Submit(t, form, now), form, later).answers == Submit(t, form, now).answers
    ensures Submit(Submit(t, form, now), form, later).score == Submit(t, form, now).score
  {
    var once := Submit(t, form, now).answers;
    assert Merge(once, form) == once;
  }

  /** A partial save repeated leaves the stored document exactly as the first save left it. */
  lemma PartialSaveIsIdempotent(t: Test, form: map<string, string>, now: int, later: int)
    requires !t.completed && !Finalises(form)
    ensures HandleQuiz(HandleQuiz(t, Post(form), now).1, Post(form), later) == HandleQuiz(t, Post(form), now)
  {
    ResubmitIsIdempotent(t, form, now, later);
  }

  /** Finalising happens once: afterwards every request is refused and changes nothing. */
  lemma FinalisesOnce(t: Test, form: map<string, string>, now: int, next: Request, later: int)
    requires !t.completed && Finalises(form)
    ensures HandleQuiz(t, Post(form), now).1.completed
    ensures HandleQuiz(t, Post(form), now).1.completedAt == Some(now)
    ensures var u := HandleQuiz(t, Post(form), now).1; HandleQuiz(u, next, later) == (AlreadyCompleted(u.score), u)
  {
  }

  /** The deadline is not enforced: a POST after expiry is scored and stored like any other. */
  lemma LateSubmissionAccepted(t: Test, form: map<string, string>, now: int)
    requires !t.completed && now >= t.expiresAt
    ensures TimeLeft(t, now) == 0
    ensures HandleQuiz(t, Post(form), now).1 == Submit(t, form, now)
  {
  }

  /** Expected answers {"q1": "5", "q2": "Newton"} against {"q1": " 5 ", "q2": "newton"} score 1: trimmed, case-sensitive. */
  lemma ScoringExample()
    ensures Score([Question("q1", "Cinematica", "grad 1", "", "5"), Question("q2", "Dinamica", "grad 1", "", "Newton")],
                  map["q1" := " 5 ", "q2" := "newton"]) == 1
  {
    var answers := map["q1" := " 5 ", "q2" := "newton"];
    var q1 := Question("q1", "Cinematica", "grad 1", "", "5");
    var q2 := Question("q2", "Dinamica", "grad 1", "", "Newton");
    assert AllSpace(" ");
    TrimIgnoresPadding(" ", "5", " ");
    assert " " + "5" + " " == " 5 ";
    assert TrimStart("5") == "5" && TrimEnd("5") == "5";
    assert Correct(q1, answers);
    assert TrimStart("newton") == "newton" && TrimEnd("newton") == "newton";
    assert TrimStart("Newton") == "Newton" && TrimEnd("Newton") == "Newton";
    assert "newton"[0] != "Newton"[0];
    assert !Correct(q2, answers);
    assert [q1, q2][..1] == [q1];
    assert [q1][..0] == [];
  }
}

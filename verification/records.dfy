/**
 * The documents of the question bank and of the test store, and the fixed
 * shape of a test: three physics domains, four questions from each, ten
 * minutes to answer.
 */
module Records {
  import opened Common

  /** The domains every test draws from (app/routes.py:55). */
  const Domains: seq<string> := ["Cinematica", "Dinamica", "Statica"]

  /** Questions drawn from each domain (app/routes.py:61, 64). */
  const QuestionsPerDomain: nat := 4

  /** Questions in a test; also the denominator of the leaderboard grade (app/routes.py:183, 246). */
  const QuestionsPerTest: nat := 12

  /** Seconds between a test's creation and its expiry: timedelta(minutes=10) (app/routes.py:81). */
  const TestDuration: int := 600

  /**
   * A question-bank document. `id` is its `_id` converted with `str`; the
   * prompt and any other fields are only carried along to the quiz page.
   */
  datatype Question = Question(id: string, domain: string, difficulty: string, prompt: string, answer: string)

  /** A test document; times are whole seconds, `None` stands for Python's `None`. */
  datatype Test = Test(
    id: string,
    studentName: string,
    difficulty: string,
    questions: seq<Question>,
    answers: map<string, string>,
    score: Option<nat>,
    completed: bool,
    createdAt: int,
    completedAt: Option<int>,
    expiresAt: int)

  function QuestionKey(q: Question): string {
    q.id
  }

  /**
   * What every test document written by this application satisfies: twelve
   * questions, a ten-minute window, a completion time exactly when completed,
   * and a score, once there is one, of at most one point per question.
   */
  predicate WellFormed(t: Test) {
    && |t.questions| == QuestionsPerTest
    && t.expiresAt == t.createdAt + TestDuration
    && (t.completedAt.Some? <==> t.completed)
    && (t.completed ==> t.score.Some?)
    && (t.score.Some? ==> t.score.value <= |t.questions|)
  }

  lemma DomainsAreDistinct()
    ensures |Domains| * QuestionsPerDomain == QuestionsPerTest
    ensures forall i, j :: 0 <= i < j < |Domains| ==> Domains[i] != Domains[j]
  {
    assert |Domains[0]| == 10 && |Domains[1]| == 8 && |Domains[2]| == 7;
  }
}

/**
 * Test assignment (`professor_dashboard`, app/routes.py:38-90), apart from
 * the store: which questions are eligible, when assignment must fail, what a
 * valid selection is, and the two random steps (sampling without replacement
 * and shuffling) with the random index left as a free choice.
 */
module Assignment {
  import opened Common
  import opened Seqs
  import opened Records

  datatype AssignError =
    | MissingFields                                           // app/routes.py:46-48
    | InsufficientQuestions(domain: string, difficulty: string) // app/routes.py:61-63

  /** A form field that is absent or empty fails Python's `not` test. */
  predicate Missing(field: Option<string>) {
    field.None? || field.value == ""
  }

  /** The result of `find({"domain": domain, "difficulty": difficulty})`, in bank order. */
  function Eligible(bank: seq<Question>, domain: string, difficulty: string): seq<Question> {
    Filter(bank, (q: Question) => q.domain == domain && q.difficulty == difficulty)
  }

  /** The bank questions of the requested difficulty whose domain is one of `domains`. */
  function EligibleIn(bank: seq<Question>, domains: seq<string>, difficulty: string): seq<Question> {
    Filter(bank, (q: Question) => q.domain in domains && q.difficulty == difficulty)
  }

  /** The questions of `qs` in domain `d`. */
  function InDomain(qs: seq<Question>, d: string): seq<Question> {
    Filter(qs, (q: Question) => q.domain == d)
  }

  /** The first of `domains` with fewer than four eligible questions, if any. */
  function ShortDomain(bank: seq<Question>, domains: seq<string>, difficulty: string): (r: Option<string>)
    ensures r.Some? <==> exists i :: 0 <= i < |domains| && |Eligible(bank, domains[i], difficulty)| < QuestionsPerDomain
    ensures r.Some? ==> r.value in domains && |Eligible(bank, r.value, difficulty)| < QuestionsPerDomain
    ensures r.Some? ==>
      exists i :: (0 <= i < |domains| && domains[i] == r.value &&
        forall j :: 0 <= j < i ==> |Eligible(bank, domains[j], difficulty)| >= QuestionsPerDomain)
  {
    if domains == [] then None
    else if |Eligible(bank, domains[0], difficulty)| < QuestionsPerDomain then Some(domains[0])
    else
      var r := ShortDomain(bank, domains[1..], difficulty);
      assert forall i :: 1 <= i < |domains| ==> domains[i] == domains[1..][i - 1];
      r
  }

  /** Why a request must be refused, if it must: missing fields first, then the first short domain. */
  function Refusal(studentName: Option<string>, difficulty: Option<string>, bank: seq<Question>): Option<AssignError> {
    if Missing(studentName) || Missing(difficulty) then Some(MissingFields)
    else match ShortDomain(bank, Domains, difficulty.value)
      case Some(d) => Some(InsufficientQuestions(d, difficulty.value))
      case None => None
  }

  /**
   * A balanced selection: twelve questions of the requested difficulty, exactly
   * four from each domain, each drawn from the bank and none drawn more often
   * than the bank holds it.
   */
  predicate ValidSelection(qs: seq<Question>, bank: seq<Question>, difficulty: string) {
    && |qs| == QuestionsPerTest
    && (forall i :: 0 <= i < |qs| ==> qs[i].difficulty == difficulty && qs[i].domain in Domains)
    && (forall k :: 0 <= k < |Domains| ==> |InDomain(qs, Domains[k])| == QuestionsPerDomain)
    && multiset(qs) <= multiset(bank)
  }

  /** The document inserted for a new test (app/routes.py:70-82). */
  predicate NewTestRecord(t: Test, id: string, studentName: string, difficulty: string, now: int) {
    && t.id == id && t.studentName == studentName && t.difficulty == difficulty
    && t.answers == map[] && t.score == None && !t.completed
    && t.createdAt == now && t.completedAt == None && t.expiresAt == now + TestDuration
  }

  /** A fresh test over a valid selection is a well-formed document. */
  lemma NewTestIsWellFormed(t: Test, bank: seq<Question>, id: string, studentName: string, difficulty: string, now: int)
    requires NewTestRecord(t, id, studentName, difficulty, now)
    requires ValidSelection(t.questions, bank, difficulty)
    ensures WellFormed(t)
    ensures !t.completed && t.completedAt.None? && t.expiresAt - t.createdAt == TestDuration
  {
  }

  /** When question ids are unique in the bank, no question appears twice in a valid selection. */
  lemma SelectionHasNoRepeats(qs: seq<Question>, bank: seq<Question>, difficulty: string)
    requires ValidSelection(qs, bank, difficulty)
    requires DistinctBy(bank, QuestionKey)
    ensures DistinctBy(qs, QuestionKey)
  {
    DistinctBySubMultiset(bank, qs, QuestionKey);
  }

  /** Shuffling a valid selection leaves it valid. */
  lemma ValidSelectionPermutation(a: seq<Question>, b: seq<Question>, bank: seq<Question>, difficulty: string)
    requires ValidSelection(a, bank, difficulty)
    requires multiset(a) == multiset(b)
    ensures ValidSelection(b, bank, difficulty)
  {
    assert |b| == |multiset(b)| == |multiset(a)| == |a|;
    forall i | 0 <= i < |b| ensures b[i].difficulty == difficulty && b[i].domain in Domains {
      assert b[i] in multiset(a);
      var j :| 0 <= j < |a| && a[j] == b[i];
    }
    forall k | 0 <= k < |Domains| ensures |InDomain(b, Domains[k])| == QuestionsPerDomain {
      FilterPermutation(a, b, (q: Question) => q.domain == Domains[k]);
    }
  }

  /** The questions of the first `i` domains, plus those of domain `i`, are those of the first `i + 1`. */
  lemma EligibleInStep(bank: seq<Question>, i: nat, difficulty: string)
    requires i < |Domains|
    ensures multiset(EligibleIn(bank, Domains[..i + 1], difficulty))
         == multiset(EligibleIn(bank, Domains[..i], difficulty)) + multiset(Eligible(bank, Domains[i], difficulty))
  {
    DomainsAreDistinct();
    assert Domains[..i + 1] == Domains[..i] + [Domains[i]];
    assert Domains[i] !in Domains[..i];
    var pNext := (q: Question) => q.domain in Domains[..i + 1] && q.difficulty == difficulty;
    var pPrev := (q: Question) => q.domain in Domains[..i] && q.difficulty == difficulty;
    var pHere := (q: Question) => q.domain == Domains[i] && q.difficulty == difficulty;
    forall x ensures multiset(Filter(bank, pNext))[x] == multiset(Filter(bank, pPrev))[x] + multiset(Filter(bank, pHere))[x] {
      FilterMultiplicity(bank, pNext, x);
      FilterMultiplicity(bank, pPrev, x);
      FilterMultiplicity(bank, pHere, x);
    }
    assert multiset(Filter(bank, pNext)) == multiset(Filter(bank, pPrev)) + multiset(Filter(bank, pHere));
  }

  /**
   * `random.sample(population, k)`: `k` elements drawn without replacement,
   * each draw an arbitrary position of what is left.
   */
  method Sample<T>(population: seq<T>, k: nat) returns (s: seq<T>)
    requires k <= |population|
    ensures |s| == k
    ensures multiset(s) <= multiset(population)
  {
    var pool := population;
    s := [];
    while |s| < k
      invariant |s| <= k && |s| + |pool| == |population|
      invariant multiset(s) + multiset(pool) == multiset(population)
    {
      var j :| 0 <= j < |pool|;
      assert pool == pool[..j] + [pool[j]] + pool[j + 1..];
      s := s + [pool[j]];
      pool := pool[..j] + pool[j + 1..];
    }
  }

  /**
   * `random.shuffle(a)`: the Fisher-Yates pass from the last position down,
   * swapping position `i` with an arbitrary position `j <= i`.
   */
  method Shuffle<T>(a: array<T>)
    modifies a
    ensures multiset(a[..]) == old(multiset(a[..]))
  {
    var i := a.Length;
    while i > 1
      invariant 0 <= i <= a.Length
      invariant multiset(a[..]) == old(multiset(a[..]))
    {
      i := i - 1;
      var j :| 0 <= j <= i;
      a[i], a[j] := a[j], a[i];
    }
  }

  /** The selected list shuffled in place: an arrangement of the same questions. */
  method Shuffled<T>(s: seq<T>) returns (r: seq<T>)
    ensures |r| == |s| && multiset(r) == multiset(s)
  {
    var a := new T[|s|](j requires 0 <= j < |s| => s[j]);
    assert a[..] == s;
    Shuffle(a);
    r := a[..];
  }
}

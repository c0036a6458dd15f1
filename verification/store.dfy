/**
 * The test collection as a mutable store: `insert_one` appends a document,
 * `find_one({"_id": id})` searches it, `update_one` replaces the found
 * document. The two request handlers that change it are methods here:
 * assigning a test (app/routes.py:38-90) and answering one (app/routes.py:100-157).
 */
module Store {
  import opened Common
  import opened Seqs
  import opened Records
  import opened Assignment
  import opened Quiz

  /** Where the document with `id` is, if anywhere. */
  function Position(records: seq<Test>, id: string): (r: Option<nat>)
    ensures r.Some? ==> r.value < |records| && records[r.value].id == id
    ensures r.None? ==> forall i :: 0 <= i < |records| ==> records[i].id != id
  {
    if records == [] then None
    else if records[|records| - 1].id == id then Some(|records| - 1)
    else Position(records[..|records| - 1], id)
  }

  function TestKey(t: Test): string {
    t.id
  }

  class TestStore {
    /** The documents, in insertion order. */
    var records: seq<Test>

    /** Document ids are unique and every document is well formed. */
    ghost predicate Valid()
      reads this
    {
      && DistinctBy(records, TestKey)
      && forall i :: 0 <= i < |records| ==> WellFormed(records[i])
    }

    constructor ()
      ensures Valid() && records == []
    {
      records := [];
    }

    /** `find_one({"_id": id})`: the position of the document with that id. */
    method Find(id: string) returns (found: Option<nat>)
      requires Valid()
      ensures found == Position(records, id)
      ensures found.Some? ==> forall j :: 0 <= j < |records| && records[j].id == id ==> j == found.value
    {
      found := None;
      var i := |records|;
      while i > 0
        invariant 0 <= i <= |records|
        invariant Position(records, id) == Position(records[..i], id)
      {
        assert records[..i][..i - 1] == records[..i - 1];
        if records[i - 1].id == id {
          found := Some(i - 1);
          return;
        }
        i := i - 1;
      }
    }

    /**
     * POST to the professor dashboard. `newId` is the uuid4 the handler draws;
     * `now` is the clock. Either a complete test document is appended once, or
     * nothing is stored.
     */
    method CreateTest(studentName: Option<string>, difficulty: Option<string>, bank: seq<Question>, now: int, newId: string)
      returns (r: Result<string, AssignError>)
      requires Valid()
      requires Position(records, newId).None?
      modifies this
      ensures Valid()
      ensures r.Failure? <==> Refusal(studentName, difficulty, bank).Some?
      ensures r.Failure? ==> r.error == Refusal(studentName, difficulty, bank).value && records == old(records)
      ensures r.Success? ==>
        && r.value == newId
        && |records| == |old(records)| + 1
        && records[..|old(records)|] == old(records)
        && NewTestRecord(records[|old(records)|], newId, studentName.value, difficulty.value, now)
        && ValidSelection(records[|old(records)|].questions, bank, difficulty.value)
    {
      if Missing(studentName) || Missing(difficulty) {
        return Failure(MissingFields);
      }
      var name, level := studentName.value, difficulty.value;
      var selection := SelectQuestions(bank, level);
      if selection.Failure? {
        return Failure(selection.error);
      }
      var test := Test(newId, name, level, selection.value, map[], None, false, now, None, now + TestDuration);
      NewTestIsWellFormed(test, bank, newId, name, level, now);
      AppendFresh(records, test);
      records := records + [test];
      return Success(newId);
    }

    /**
     * GET or POST to the quiz page for `testId`. A missing id or an unknown
     * test changes nothing; otherwise the found document is handled as
     * HandleQuiz says and written back in place.
     */
    method Quiz(testId: Option<string>, req: Request, now: int) returns (resp: Response)
      requires Valid()
      modifies this
      ensures Valid()
      ensures Missing(testId) ==> resp == MissingTestId && records == old(records)
      ensures !Missing(testId) && Position(old(records), testId.value).None? ==>
        resp == TestNotFound && records == old(records)
      ensures !Missing(testId) && Position(old(records), testId.value).Some? ==>
        var i := Position(old(records), testId.value).value;
        var out := HandleQuiz(old(records)[i], req, now);
        resp == out.0 && records == old(records)[i := out.1]
    {
      if Missing(testId) {
        return MissingTestId;
      }
      var found := Find(testId.value);
      if found.None? {
        return TestNotFound;
      }
      var i := found.value;
      var t := records[i];
      var timeLeft := TimeLeft(t, now);
      if t.completed {
        return AlreadyCompleted(t.score);
      }
      match req {
        case Get =>
          resp := ShowQuiz(t.questions, t.studentName, t.id, timeLeft);
        case Post(form) =>
          var answers := t.answers + form;
          var score := ScoreAnswers(t.questions, answers);
          var completed := Finalises(form);
          var updated := t.(answers := answers, score := Some(score), completed := completed,
                            completedAt := if completed then Some(now) else None);
          assert updated == Submit(t, form, now);
          records := records[i := updated];
          assert forall j :: 0 <= j < |records| ==> TestKey(records[j]) == TestKey(old(records)[j]);
          resp := if completed then Finalized(t.studentName) else SavedPartial;
      }
    }
  }

  /**
   * What the selection loop has built after the first `i` domains: four
   * questions of the requested difficulty for each of them, drawn from the bank.
   */
  ghost predicate Progress(selected: seq<Question>, bank: seq<Question>, i: nat, level: string)
    requires i <= |Domains|
  {
    && |selected| == QuestionsPerDomain * i
    && (forall j :: 0 <= j < |selected| ==> selected[j].difficulty == level && selected[j].domain in Domains[..i])
    && (forall k :: 0 <= k < i ==> |InDomain(selected, Domains[k])| == QuestionsPerDomain)
    && multiset(selected) <= multiset(EligibleIn(bank, Domains[..i], level))
  }

  /**
   * The selection loop of app/routes.py:55-66: for each domain in turn, stop
   * with an error if fewer than four questions match it and the difficulty,
   * otherwise draw four of them; then shuffle the twelve.
   */
  method SelectQuestions(bank: seq<Question>, level: string) returns (r: Result<seq<Question>, AssignError>)
    ensures r.Failure? <==> ShortDomain(bank, Domains, level).Some?
    ensures r.Failure? ==> r.error == InsufficientQuestions(ShortDomain(bank, Domains, level).value, level)
    ensures r.Success? ==> ValidSelection(r.value, bank, level)
  {
    var selected: seq<Question> := [];
    assert Progress(selected, bank, 0, level);
    for i := 0 to |Domains|
      invariant Progress(selected, bank, i, level)
      invariant ShortDomain(bank, Domains, level) == ShortDomain(bank, Domains[i..], level)
    {
      var domain := Domains[i];
      assert Domains[i..][0] == domain && Domains[i..][1..] == Domains[i + 1..];
      var qs := Eligible(bank, domain, level);
      if |qs| < QuestionsPerDomain {
        return Failure(InsufficientQuestions(domain, level));
      }
      var sample := Sample(qs, QuestionsPerDomain);
      SelectionStep(selected, sample, bank, i, level);
      selected := selected + sample;
    }
    SelectionComplete(selected, bank, level);
    var shuffled := Shuffled(selected);
    ValidSelectionPermutation(selected, shuffled, bank, level);
    return Success(shuffled);
  }

  /** Appending a document with a new id to a valid store keeps it valid. */
  lemma AppendFresh(records: seq<Test>, t: Test)
    requires DistinctBy(records, TestKey) && forall i :: 0 <= i < |records| ==> WellFormed(records[i])
    requires Position(records, t.id).None? && WellFormed(t)
    ensures DistinctBy(records + [t], TestKey)
    ensures forall i :: 0 <= i < |records + [t]| ==> WellFormed((records + [t])[i])
    ensures (records + [t])[..|records|] == records
  {
    var r := records + [t];
    forall i, j | 0 <= i < j < |r| ensures TestKey(r[i]) != TestKey(r[j]) {
      if j < |records| {
        assert r[i] == records[i] && r[j] == records[j];
      } else {
        assert r[i] == records[i] && r[j] == t;
      }
    }
  }

  /** After all three domains, the accumulated questions form a valid selection. */
  lemma SelectionComplete(selected: seq<Question>, bank: seq<Question>, level: string)
    requires Progress(selected, bank, |Domains|, level)
    ensures ValidSelection(selected, bank, level)
  {
    DomainsAreDistinct();
    assert Domains[..|Domains|] == Domains;
    FilterSubMultiset(bank, (q: Question) => q.domain in Domains && q.difficulty == level);
  }

  /** One pass of the selection loop keeps its invariant. */
  lemma SelectionStep(selected: seq<Question>, sample: seq<Question>, bank: seq<Question>, i: nat, level: string)
    requires i < |Domains|
    requires Progress(selected, bank, i, level)
    requires |sample| == QuestionsPerDomain
    requires multiset(sample) <= multiset(Eligible(bank, Domains[i], level))
    ensures Progress(selected + sample, bank, i + 1, level)
  {
    SampleFromDomain(sample, bank, Domains[i], level);
    DomainCounts(selected, sample, i, level);
    EligibleInStep(bank, i, level);
    MembersStep(selected, sample, i, level);
  }

  /** The accumulated questions stay at the requested difficulty, within the domains visited. */
  lemma MembersStep(selected: seq<Question>, sample: seq<Question>, i: nat, level: string)
    requires i < |Domains|
    requires forall j :: 0 <= j < |selected| ==> selected[j].difficulty == level && selected[j].domain in Domains[..i]
    requires forall j :: 0 <= j < |sample| ==> sample[j].domain == Domains[i] && sample[j].difficulty == level
    ensures forall j :: 0 <= j < |selected + sample| ==>
      (selected + sample)[j].difficulty == level && (selected + sample)[j].domain in Domains[..i + 1]
  {
    assert Domains[..i + 1] == Domains[..i] + [Domains[i]];
    forall j | 0 <= j < |selected + sample|
      ensures (selected + sample)[j].difficulty == level && (selected + sample)[j].domain in Domains[..i + 1]
    {
      if j < |selected| {
        assert (selected + sample)[j] == selected[j];
      } else {
        assert (selected + sample)[j] == sample[j - |selected|];
      }
    }
  }

  /** A sample of a domain's eligible questions lies in that domain, at that difficulty, within the bank. */
  lemma SampleFromDomain(sample: seq<Question>, bank: seq<Question>, domain: string, level: string)
    requires multiset(sample) <= multiset(Eligible(bank, domain, level))
    ensures forall j :: 0 <= j < |sample| ==> sample[j].domain == domain && sample[j].difficulty == level
  {
    forall j | 0 <= j < |sample| ensures sample[j].domain == domain && sample[j].difficulty == level {
      assert sample[j] in multiset(Eligible(bank, domain, level));
      var e := Eligible(bank, domain, level);
      var m :| 0 <= m < |e| && e[m] == sample[j];
    }
  }

  /** Appending domain `i`'s four questions keeps four per earlier domain and adds four for domain `i`. */
  lemma DomainCounts(selected: seq<Question>, sample: seq<Question>, i: nat, level: string)
    requires i < |Domains|
    requires |sample| == QuestionsPerDomain
    requires forall j :: 0 <= j < |selected| ==> selected[j].domain in Domains[..i]
    requires forall j :: 0 <= j < |sample| ==> sample[j].domain == Domains[i] && sample[j].difficulty == level
    requires forall k :: 0 <= k < i ==> |InDomain(selected, Domains[k])| == QuestionsPerDomain
    ensures forall k :: 0 <= k < i + 1 ==> |InDomain(selected + sample, Domains[k])| == QuestionsPerDomain
  {
    DomainsAreDistinct();
    forall k | 0 <= k < i + 1 ensures |InDomain(selected + sample, Domains[k])| == QuestionsPerDomain {
      var p := (q: Question) => q.domain == Domains[k];
      FilterConcat(selected, sample, p);
      if k < i {
        FilterNone(sample, p);
      } else {
        forall x | x in selected ensures !p(x) {
          var j :| 0 <= j < |selected| && selected[j] == x;
          assert Domains[i] !in Domains[..i];
        }
        FilterNone(selected, p);
        FilterAll(sample, p);
      }
    }
  }
}

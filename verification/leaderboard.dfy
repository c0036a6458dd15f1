/**
 * The two leaderboards. A student's page lists that student's completed
 * tests, latest first, with the average score and the grade out of ten
 * (`leaderboard_student`, app/routes.py:160-189, computed again for the PDF at
 * app/routes.py:288-305). The professors' page ranks every student by average
 * score (`leaderboard`, app/routes.py:224-248, computed again for the PDF at
 * app/routes.py:250-272). Averages are exact rationals.
 */
module Leaderboard {
  import opened Common
  import opened Seqs
  import opened Records

  /** The `$match` stage and the `find` filter: completed, with a score. */
  predicate Qualifies(t: Test) {
    t.completed && t.score.Some?
  }

  /** The qualifying tests, in store order. */
  function Matched(records: seq<Test>): seq<Test> {
    Filter(records, Qualifies)
  }

  /** The tests of `ts` taken by the student called `name`. */
  function OfStudent(ts: seq<Test>, name: string): seq<Test> {
    if ts == [] then []
    else OfStudent(ts[..|ts| - 1], name) + (if ts[|ts| - 1].studentName == name then [ts[|ts| - 1]] else [])
  }

  /** `find({"student_name": name, "completed": True, "score": {"$ne": None}})`, in store order. */
  function StudentTests(records: seq<Test>, name: string): seq<Test> {
    OfStudent(Matched(records), name)
  }

  /** A test's score; a test without one adds nothing, as the generator's `if` skips it. */
  function ScoreOf(t: Test): nat {
    if t.score.Some? then t.score.value else 0
  }

  function TotalScore(ts: seq<Test>): nat {
    if ts == [] then 0 else TotalScore(ts[..|ts| - 1]) + ScoreOf(ts[|ts| - 1])
  }

  /** The mean score, and 0 for no tests. */
  function Mean(ts: seq<Test>): real {
    if ts == [] then 0.0 else TotalScore(ts) as real / |ts| as real
  }

  /** The grade out of ten for an average out of twelve: `(average / 12) * 10`. */
  function Grade(average: real): real {
    average / QuestionsPerTest as real * 10.0
  }

  /** Mongo's descending order on `completed_at`: later first, a missing time last. */
  predicate CompletedNoEarlier(a: Test, b: Test) {
    match b.completedAt
    case None => true
    case Some(y) => a.completedAt.Some? && a.completedAt.value >= y
  }

  /** A student's page: the tests shown, the average and the grade. */
  datatype StudentSummary = StudentSummary(studentName: string, tests: seq<Test>, averageScore: real, averageGrade: real)

  /** The average and grade as the page computes them (app/routes.py:175-183). */
  function PageAverages(tests: seq<Test>): (real, real) {
    if tests == [] then (0.0, 0.0)
    else
      var total := TotalScore(tests);
      var count := |tests|;
      var average := if count > 0 then total as real / count as real else 0.0;
      (average, Grade(average))
  }

  /** The average and grade as the PDF computes them (app/routes.py:302-305). */
  function PdfAverages(tests: seq<Test>): (real, real) {
    var total := if tests != [] then TotalScore(tests) else 0;
    var count := |tests|;
    var average := if count > 0 then total as real / count as real else 0.0;
    (average, Grade(average))
  }

  /**
   * The student's page (app/routes.py:167-183): exactly the student's
   * qualifying tests, each as often as the store holds it, latest completion
   * first, with the mean of their scores and its grade.
   */
  function LeaderboardStudent(records: seq<Test>, name: string): (r: StudentSummary)
    ensures r.studentName == name
    ensures forall i :: 0 <= i < |r.tests| ==> Qualifies(r.tests[i]) && r.tests[i].studentName == name
    ensures forall t :: multiset(r.tests)[t] == if Qualifies(t) && t.studentName == name then multiset(records)[t] else 0
    ensures SortedBy(r.tests, CompletedNoEarlier)
    ensures r.averageScore == Mean(StudentTests(records, name))
    ensures r.averageGrade == Grade(r.averageScore)
    ensures r.tests == [] ==> r.averageScore == 0.0 && r.averageGrade == 0.0
  {
    var found := StudentTests(records, name);
    var tests := SortBy(found, CompletedNoEarlier);
    StudentTestsMultiplicity(records, name);
    MembersOfPermutation(found, tests, name);
    CompletionOrderIsTotal();
    SortBySorted(found, CompletedNoEarlier);
    TotalScorePermutation(found, tests);
    var averages := PageAverages(tests);
    StudentSummary(name, tests, averages.0, averages.1)
  }

  /** One `$group` output document: `_id`, `average_score` and `tests_count`. */
  datatype Group = Group(studentName: string, averageScore: real, testsCount: nat)

  /** A row of the global leaderboard once `average_grade` has been added. */
  datatype Entry = Entry(studentName: string, averageScore: real, testsCount: nat, averageGrade: real)

  /** The running (sum of scores, number of tests) per student that `$avg` and `$sum: 1` keep. */
  function Accumulate(ts: seq<Test>): map<string, (nat, nat)> {
    if ts == [] then map[]
    else
      var acc := Accumulate(ts[..|ts| - 1]);
      var t := ts[|ts| - 1];
      var prev := if t.studentName in acc then acc[t.studentName] else (0, 0);
      acc[t.studentName := (prev.0 + ScoreOf(t), prev.1 + 1)]
  }

  /** The distinct student names of `ts`, in order of first appearance. */
  function Names(ts: seq<Test>): (r: seq<string>)
    ensures forall i, j :: 0 <= i < j < |r| ==> r[i] != r[j]
    ensures forall name :: name in r <==> exists i :: 0 <= i < |ts| && ts[i].studentName == name
  {
    if ts == [] then []
    else
      var init := ts[..|ts| - 1];
      var rest := Names(init);
      var name := ts[|ts| - 1].studentName;
      assert forall i :: 0 <= i < |init| ==> init[i] == ts[i];
      if name in rest then rest else rest + [name]
  }

  /** The group document for `name`, read off the accumulated sums and counts. */
  function GroupOf(acc: map<string, (nat, nat)>, name: string): Group {
    if name in acc && acc[name].1 > 0 then Group(name, acc[name].0 as real / acc[name].1 as real, acc[name].1)
    else Group(name, 0.0, 0)
  }

  /** `$match` followed by `$group` on `student_name`. */
  function Groups(records: seq<Test>): seq<Group> {
    var matched := Matched(records);
    var acc := Accumulate(matched);
    var names := Names(matched);
    seq(|names|, i requires 0 <= i < |names| => GroupOf(acc, names[i]))
  }

  predicate HigherAverage(a: Group, b: Group) {
    a.averageScore >= b.averageScore
  }

  /** `$sort: {"average_score": -1}`; ties are left in an order of the sort's choosing. */
  function Ranked(records: seq<Test>): seq<Group> {
    SortBy(Groups(records), HigherAverage)
  }

  function WithGrade(g: Group): Entry {
    Entry(g.studentName, g.averageScore, g.testsCount, Grade(g.averageScore))
  }

  function Graded(groups: seq<Group>): seq<Entry> {
    seq(|groups|, i requires 0 <= i < |groups| => WithGrade(groups[i]))
  }

  /** The rows the professors' page shows (app/routes.py:233-246). */
  function GlobalLeaderboard(records: seq<Test>): seq<Entry> {
    Graded(Ranked(records))
  }

  /** The loop of app/routes.py:245-246 that adds `average_grade` to every group document. */
  method AddGrades(groups: seq<Group>) returns (entries: seq<Entry>)
    ensures entries == Graded(groups)
  {
    entries := [];
    for i := 0 to |groups|
      invariant |entries| == i
      invariant forall k :: 0 <= k < i ==> entries[k] == WithGrade(groups[k])
    {
      var g := groups[i];
      entries := entries + [Entry(g.studentName, g.averageScore, g.testsCount, g.averageScore / 12.0 * 10.0)];
    }
  }

  // ----- Proofs about the student's page -----

  lemma CompletionOrderIsTotal()
    ensures TotalPreorder(CompletedNoEarlier)
  {
    forall x: Test, y: Test ensures CompletedNoEarlier(x, y) || CompletedNoEarlier(y, x) {
    }
    forall x: Test, y: Test, z: Test | CompletedNoEarlier(x, y) && CompletedNoEarlier(y, z)
      ensures CompletedNoEarlier(x, z)
    {
    }
  }

  /** The student's qualifying tests, each exactly as often as the store holds it. */
  lemma StudentTestsMultiplicity(records: seq<Test>, name: string)
    ensures forall t :: multiset(StudentTests(records, name))[t]
                     == if Qualifies(t) && t.studentName == name then multiset(records)[t] else 0
  {
    forall t ensures multiset(StudentTests(records, name))[t]
      == if Qualifies(t) && t.studentName == name then multiset(records)[t] else 0
    {
      OfStudentMultiplicity(Matched(records), name, t);
      FilterMultiplicity(records, Qualifies, t);
    }
  }

  /** What occurs in a rearrangement of the student's tests is one of the student's qualifying tests. */
  lemma MembersOfPermutation(found: seq<Test>, tests: seq<Test>, name: string)
    requires multiset(tests) == multiset(found)
    requires forall t :: multiset(found)[t] > 0 ==> Qualifies(t) && t.studentName == name
    ensures forall i :: 0 <= i < |tests| ==> Qualifies(tests[i]) && tests[i].studentName == name
  {
    forall i | 0 <= i < |tests| ensures Qualifies(tests[i]) && tests[i].studentName == name {
      assert tests[i] in multiset(tests);
    }
  }

  lemma {:induction false} TotalScoreConcat(a: seq<Test>, b: seq<Test>)
    ensures TotalScore(a + b) == TotalScore(a) + TotalScore(b)
  {
    if b == [] {
      assert a + b == a;
    } else {
      var n := |b| - 1;
      TotalScoreConcat(a, b[..n]);
      assert (a + b)[..|a + b| - 1] == a + b[..n];
    }
  }

  /** Taking out the test at `k` takes away its score. */
  lemma TotalScoreRemove(b: seq<Test>, k: nat)
    requires k < |b|
    ensures TotalScore(b) == TotalScore(b[..k] + b[k + 1..]) + ScoreOf(b[k])
  {
    var front, x, back := b[..k], [b[k]], b[k + 1..];
    assert b == front + (x + back);
    TotalScoreConcat(front, x + back);
    TotalScoreConcat(x, back);
    TotalScoreConcat(front, back);
    TotalScoreSingle(b[k]);
  }

  lemma TotalScoreSingle(t: Test)
    ensures TotalScore([t]) == ScoreOf(t)
  {
    assert [t][..0] == [];
  }

  /** Reordering the tests does not change their total score. */
  lemma {:induction false} TotalScorePermutation(a: seq<Test>, b: seq<Test>)
    requires multiset(a) == multiset(b)
    ensures TotalScore(a) == TotalScore(b)
    decreases |a|
  {
    if a == [] {
      assert |b| == |multiset(b)| == 0;
    } else {
      var n := |a| - 1;
      var x := a[n];
      assert a == a[..n] + [x];
      assert x in multiset(b);
      var k :| 0 <= k < |b| && b[k] == x;
      var rest := b[..k] + b[k + 1..];
      assert b == b[..k] + [x] + b[k + 1..];
      assert multiset(rest) == multiset(b) - multiset{x};
      assert multiset(a[..n]) == multiset(a) - multiset{x};
      TotalScorePermutation(a[..n], rest);
      TotalScoreRemove(b, k);
    }
  }

  /** Every test scored at most `m` points: the total is at most `m` per test. */
  lemma {:induction false} TotalScoreBound(ts: seq<Test>, m: nat)
    requires forall i :: 0 <= i < |ts| ==> ScoreOf(ts[i]) <= m
    ensures TotalScore(ts) <= m * |ts|
  {
    if ts != [] {
      var n := |ts| - 1;
      var init := ts[..n];
      forall i | 0 <= i < |init| ensures ScoreOf(init[i]) <= m {
        assert init[i] == ts[i];
      }
      TotalScoreBound(init, m);
      assert TotalScore(ts) == TotalScore(init) + ScoreOf(ts[n]);
      assert m * |ts| == m * |init| + m;
    }
  }

  /** Scores of well-formed tests average between 0 and 12, so grades lie between 0 and 10. */
  lemma MeanBounds(ts: seq<Test>)
    requires forall i :: 0 <= i < |ts| ==> WellFormed(ts[i])
    ensures 0.0 <= Mean(ts) <= QuestionsPerTest as real
    ensures 0.0 <= Grade(Mean(ts)) <= 10.0
  {
    if ts != [] {
      TotalScoreBound(ts, QuestionsPerTest);
      RatioBounds(TotalScore(ts) as real, |ts| as real, QuestionsPerTest as real);
    }
    GradeBounds(Mean(ts));
  }

  /** A total of at most `m` per item, divided by the item count, lies in [0, m]. */
  lemma RatioBounds(total: real, count: real, m: real)
    requires count > 0.0 && 0.0 <= total <= m * count
    ensures 0.0 <= total / count <= m
  {
    var q := total / count;
    assert q * count == total;
    if q > m {
      assert q * count > m * count;
    }
  }

  /** An average out of twelve gives a grade out of ten. */
  lemma GradeBounds(average: real)
    requires 0.0 <= average <= QuestionsPerTest as real
    ensures 0.0 <= Grade(average) <= 10.0
  {
  }

  /** The page's and the PDF's arithmetic agree, and both give the mean and its grade. */
  lemma PdfAgreesWithPage(tests: seq<Test>)
    ensures PdfAverages(tests) == PageAverages(tests)
    ensures PageAverages(tests) == (Mean(tests), Grade(Mean(tests)))
  {
  }

  // ----- Proofs about the global leaderboard -----

  /** A student's tests are that student's, each as often as `ts` holds it. */
  lemma {:induction false} OfStudentMultiplicity(ts: seq<Test>, name: string, x: Test)
    ensures multiset(OfStudent(ts, name))[x] == if x.studentName == name then multiset(ts)[x] else 0
  {
    if ts != [] {
      var n := |ts| - 1;
      OfStudentMultiplicity(ts[..n], name, x);
      assert ts == ts[..n] + [ts[n]];
    }
  }

  /** The accumulator holds, for every student present, the total and the number of their tests. */
  lemma {:induction false} AccumulateAt(ts: seq<Test>, name: string)
    ensures name in Accumulate(ts) <==> |OfStudent(ts, name)| > 0
    ensures name in Accumulate(ts) ==> Accumulate(ts)[name] == (TotalScore(OfStudent(ts, name)), |OfStudent(ts, name)|)
  {
    if ts == [] {
      assert OfStudent(ts, name) == [];
    } else {
      var n := |ts| - 1;
      AccumulateAt(ts[..n], name);
      if ts[n].studentName == name {
        AccumulateOwnTest(ts, name);
      } else {
        AccumulateOtherTest(ts, name);
      }
    }
  }

  /** A test of `name` adds its score and one to that student's accumulated pair. */
  lemma AccumulateOwnTest(ts: seq<Test>, name: string)
    requires |ts| > 0 && ts[|ts| - 1].studentName == name
    requires var init := ts[..|ts| - 1];
      && (name in Accumulate(init) <==> |OfStudent(init, name)| > 0)
      && (name in Accumulate(init) ==> Accumulate(init)[name] == (TotalScore(OfStudent(init, name)), |OfStudent(init, name)|))
    ensures name in Accumulate(ts) && |OfStudent(ts, name)| > 0
    ensures Accumulate(ts)[name] == (TotalScore(OfStudent(ts, name)), |OfStudent(ts, name)|)
  {
    var n := |ts| - 1;
    var t := ts[n];
    var acc := Accumulate(ts[..n]);
    var before := OfStudent(ts[..n], name);
    assert OfStudent(ts, name) == before + [t];
    var prev := if name in acc then acc[name] else (0, 0);
    assert prev == (TotalScore(before), |before|);
    assert Accumulate(ts)[name] == (prev.0 + ScoreOf(t), prev.1 + 1);
    assert (before + [t])[..|before|] == before;
    assert TotalScore(before + [t]) == TotalScore(before) + ScoreOf(t);
  }

  /** A test of another student leaves `name`'s accumulated pair as it was. */
  lemma AccumulateOtherTest(ts: seq<Test>, name: string)
    requires |ts| > 0 && ts[|ts| - 1].studentName != name
    requires var init := ts[..|ts| - 1];
      && (name in Accumulate(init) <==> |OfStudent(init, name)| > 0)
      && (name in Accumulate(init) ==> Accumulate(init)[name] == (TotalScore(OfStudent(init, name)), |OfStudent(init, name)|))
    ensures name in Accumulate(ts) <==> |OfStudent(ts, name)| > 0
    ensures name in Accumulate(ts) ==> Accumulate(ts)[name] == (TotalScore(OfStudent(ts, name)), |OfStudent(ts, name)|)
  {
    var n := |ts| - 1;
    var acc := Accumulate(ts[..n]);
    assert OfStudent(ts, name) == OfStudent(ts[..n], name);
    assert Accumulate(ts).Keys == acc.Keys + {ts[n].studentName};
    if name in acc {
      assert Accumulate(ts)[name] == acc[name];
    }
  }

  /** A name is among the groups' names exactly when that student has a test in `ts`. */
  lemma NamesPresent(ts: seq<Test>, name: string)
    ensures name in Names(ts) <==> |OfStudent(ts, name)| > 0
  {
    if name in Names(ts) {
      var i :| 0 <= i < |ts| && ts[i].studentName == name;
      assert ts[i] in multiset(ts);
      OfStudentMultiplicity(ts, name, ts[i]);
      assert ts[i] in multiset(OfStudent(ts, name));
    }
    if |OfStudent(ts, name)| > 0 {
      var t := OfStudent(ts, name)[0];
      assert t in multiset(OfStudent(ts, name));
      OfStudentMultiplicity(ts, name, t);
      assert t in multiset(ts);
      var i :| 0 <= i < |ts| && ts[i] == t;
    }
  }

  /** The statistics a group of `records` carries: its student's test count and mean score. */
  predicate GroupFor(records: seq<Test>, g: Group) {
    var tests := StudentTests(records, g.studentName);
    g.testsCount == |tests| >= 1 && g.averageScore == Mean(tests)
  }

  lemma GroupOfStatistics(records: seq<Test>, name: string)
    requires name in Names(Matched(records))
    ensures GroupOf(Accumulate(Matched(records)), name).studentName == name
    ensures GroupFor(records, GroupOf(Accumulate(Matched(records)), name))
  {
    NamesPresent(Matched(records), name);
    AccumulateAt(Matched(records), name);
  }

  /** The grouping stage: one group per student with a qualifying test, each with its statistics. */
  lemma GroupsSpec(records: seq<Test>)
    ensures forall i, j :: 0 <= i < j < |Groups(records)| ==> Groups(records)[i].studentName != Groups(records)[j].studentName
    ensures forall k :: 0 <= k < |Groups(records)| ==> GroupFor(records, Groups(records)[k])
    ensures forall name :: |StudentTests(records, name)| > 0 <==> name in Names(Matched(records))
    ensures forall k :: 0 <= k < |Groups(records)| ==> Groups(records)[k].studentName == Names(Matched(records))[k]
  {
    var names := Names(Matched(records));
    forall k | 0 <= k < |names|
      ensures Groups(records)[k].studentName == names[k] && GroupFor(records, Groups(records)[k])
    {
      GroupOfStatistics(records, names[k]);
    }
    forall name ensures |StudentTests(records, name)| > 0 <==> name in names {
      NamesPresent(Matched(records), name);
    }
  }

  function GroupName(g: Group): string {
    g.studentName
  }

  lemma AverageOrderIsTotal()
    ensures TotalPreorder(HigherAverage)
  {
  }

  /** No student has two rows on the global leaderboard. */
  lemma GlobalOneEntryPerStudent(records: seq<Test>)
    ensures var es := GlobalLeaderboard(records);
      forall i, j :: 0 <= i < j < |es| ==> es[i].studentName != es[j].studentName
  {
    var gs, ranked := Groups(records), Ranked(records);
    GroupsSpec(records);
    assert DistinctBy(gs, GroupName);
    DistinctBySubMultiset(gs, ranked, GroupName);
  }

  /** Rearranging groups keeps the set of names they carry. */
  lemma PermutedNames(gs: seq<Group>, ranked: seq<Group>, name: string)
    requires multiset(gs) == multiset(ranked)
    ensures (exists k :: 0 <= k < |ranked| && ranked[k].studentName == name)
        <==> (exists j :: 0 <= j < |gs| && gs[j].studentName == name)
  {
    if k :| 0 <= k < |ranked| && ranked[k].studentName == name {
      assert ranked[k] in multiset(gs);
      var j :| 0 <= j < |gs| && gs[j] == ranked[k];
    }
    if j :| 0 <= j < |gs| && gs[j].studentName == name {
      assert gs[j] in multiset(ranked);
      var k :| 0 <= k < |ranked| && ranked[k] == gs[j];
    }
  }

  /** Adding grades keeps the names. */
  lemma GradedNames(gs: seq<Group>, name: string)
    ensures (exists k :: 0 <= k < |Graded(gs)| && Graded(gs)[k].studentName == name)
        <==> (exists k :: 0 <= k < |gs| && gs[k].studentName == name)
  {
    if k :| 0 <= k < |Graded(gs)| && Graded(gs)[k].studentName == name {
      assert gs[k].studentName == name;
    }
    if k :| 0 <= k < |gs| && gs[k].studentName == name {
      assert Graded(gs)[k].studentName == name;
    }
  }

  /** The groups carry exactly the names found among the qualifying tests. */
  lemma GroupNames(records: seq<Test>, name: string)
    ensures (exists j :: 0 <= j < |Groups(records)| && Groups(records)[j].studentName == name)
        <==> name in Names(Matched(records))
  {
    var gs, names := Groups(records), Names(Matched(records));
    if j :| 0 <= j < |gs| && gs[j].studentName == name {
      assert names[j] == name;
    }
    if name in names {
      var j :| 0 <= j < |names| && names[j] == name;
      assert gs[j].studentName == name;
    }
  }

  /** A student has a row on the global leaderboard exactly when they have a qualifying test. */
  lemma GlobalEntryIffQualifyingTest(records: seq<Test>, name: string)
    ensures var es := GlobalLeaderboard(records);
      (exists k :: 0 <= k < |es| && es[k].studentName == name) <==> |StudentTests(records, name)| > 0
  {
    var gs, ranked, es := Groups(records), Ranked(records), GlobalLeaderboard(records);
    var inEntries := exists k :: 0 <= k < |es| && es[k].studentName == name;
    var inRanked := exists k :: 0 <= k < |ranked| && ranked[k].studentName == name;
    var inGroups := exists j :: 0 <= j < |gs| && gs[j].studentName == name;
    assert inEntries == inRanked by {
      GradedNames(ranked, name);
    }
    assert inRanked == inGroups by {
      PermutedNames(gs, ranked, name);
    }
    assert inGroups == (name in Names(Matched(records))) by {
      GroupNames(records, name);
    }
    assert (name in Names(Matched(records))) == (|StudentTests(records, name)| > 0) by {
      NamesPresent(Matched(records), name);
    }
  }

  /** Each row counts its student's qualifying tests and carries their mean score and its grade. */
  lemma GlobalEntryStatistics(records: seq<Test>)
    ensures var es := GlobalLeaderboard(records);
      forall k :: 0 <= k < |es| ==>
        var tests := StudentTests(records, es[k].studentName);
        && es[k].testsCount == |tests| >= 1
        && es[k].averageScore == Mean(tests)
        && es[k].averageGrade == Grade(es[k].averageScore)
  {
    var ranked := Ranked(records);
    RankedStatistics(records);
    forall k | 0 <= k < |GlobalLeaderboard(records)|
      ensures GroupFor(records, ranked[k]) && GlobalLeaderboard(records)[k] == WithGrade(ranked[k])
    {
    }
  }

  /** Every ranked group carries its student's count and mean. */
  lemma RankedStatistics(records: seq<Test>)
    ensures forall k :: 0 <= k < |Ranked(records)| ==> GroupFor(records, Ranked(records)[k])
  {
    var gs, ranked := Groups(records), Ranked(records);
    GroupsSpec(records);
    forall k | 0 <= k < |ranked| ensures GroupFor(records, ranked[k]) {
      assert ranked[k] in multiset(gs);
      var j :| 0 <= j < |gs| && gs[j] == ranked[k];
    }
  }

  /** The rows are in non-increasing order of average score. */
  lemma GlobalSortedByAverage(records: seq<Test>)
    ensures var es := GlobalLeaderboard(records);
      forall i, j :: 0 <= i < j < |es| ==> es[i].averageScore >= es[j].averageScore
  {
    AverageOrderIsTotal();
    SortBySorted(Groups(records), HigherAverage);
  }

  /** A student's row on the global leaderboard shows the same average and grade as the student's own page. */
  lemma GlobalAgreesWithStudent(records: seq<Test>, k: nat)
    requires k < |GlobalLeaderboard(records)|
    ensures var e := GlobalLeaderboard(records)[k];
      var s := LeaderboardStudent(records, e.studentName);
      e.averageScore == s.averageScore && e.averageGrade == s.averageGrade && e.testsCount == |s.tests|
  {
    GlobalEntryStatistics(records);
  }

  /** With well-formed documents, every average lies in [0, 12] and every grade in [0, 10]. */
  lemma GlobalBounds(records: seq<Test>)
    requires forall i :: 0 <= i < |records| ==> WellFormed(records[i])
    ensures var es := GlobalLeaderboard(records);
      forall k :: 0 <= k < |es| ==> 0.0 <= es[k].averageScore <= 12.0 && 0.0 <= es[k].averageGrade <= 10.0
  {
    var es := GlobalLeaderboard(records);
    GlobalEntryStatistics(records);
    forall k | 0 <= k < |es| ensures 0.0 <= es[k].averageScore <= 12.0 && 0.0 <= es[k].averageGrade <= 10.0 {
      var tests := StudentTests(records, es[k].studentName);
      StudentTestsMultiplicity(records, es[k].studentName);
      forall i | 0 <= i < |tests| ensures WellFormed(tests[i]) {
        assert multiset(tests)[tests[i]] > 0;
        assert tests[i] in multiset(records);
      }
      MeanBounds(tests);
    }
  }
}

/**
 * A worked example of both leaderboards over a small store: two finished
 * tests for one student, one for another, and a test still open. The tests
 * carry no questions, because neither leaderboard reads them; so these are
 * not `WellFormed` documents and `GlobalBounds` is not applied to them.
 */
module LeaderboardExamples {
  import opened Common
  import opened Seqs
  import opened Records
  import opened Leaderboard

  function ExampleTest(id: string, name: string, score: nat, completedAt: int): Test {
    Test(id, name, "grad 1", [], map[], Some(score), true, 0, Some(completedAt), TestDuration)
  }

  /** A scored 8 and then 10, B scored 6, and A has a test still open. */
  function ExampleStore(): seq<Test> {
    [ExampleTest("t1", "A", 8, 100), ExampleTest("t2", "A", 10, 200), ExampleTest("t3", "B", 6, 150),
     Test("t4", "A", "grad 1", [], map[], None, false, 0, None, TestDuration)]
  }

  lemma ExampleMatched()
    ensures Matched(ExampleStore())
         == [ExampleTest("t1", "A", 8, 100), ExampleTest("t2", "A", 10, 200), ExampleTest("t3", "B", 6, 150)]
  {
  }

  /** The three finished tests of the example, as their fields matter to the leaderboards. */
  predicate Finished(a1: Test, a2: Test, b1: Test) {
    && a1.studentName == "A" && a1.score == Some(8) && a1.completedAt == Some(100)
    && a2.studentName == "A" && a2.score == Some(10) && a2.completedAt == Some(200)
    && b1.studentName == "B" && b1.score == Some(6)
  }

  /** The prefixes of the finished tests, as the recursions from the end visit them. */
  lemma ExamplePrefixes(a1: Test, a2: Test, b1: Test)
    ensures [a1, a2, b1][..2] == [a1, a2] && [a1, a2][..1] == [a1] && [a1][..0] == []
  {
  }

  lemma StudentATestsOf(a1: Test, a2: Test, b1: Test)
    requires Finished(a1, a2, b1)
    ensures OfStudent([a1, a2, b1], "A") == [a1, a2]
  {
    ExamplePrefixes(a1, a2, b1);
    assert OfStudent([a1], "A") == [a1];
    assert OfStudent([a1, a2], "A") == [a1, a2];
  }

  lemma LatestFirst(a1: Test, a2: Test, b1: Test)
    requires Finished(a1, a2, b1)
    ensures SortBy([a1, a2], CompletedNoEarlier) == [a2, a1]
  {
    assert [a1, a2][1..] == [a2] && [a2][1..] == [];
    assert SortBy([a2], CompletedNoEarlier) == [a2];
    assert !CompletedNoEarlier(a1, a2);
    assert InsertBy(a1, [a2], CompletedNoEarlier) == [a2] + InsertBy(a1, [], CompletedNoEarlier);
  }

  lemma StudentAAverages(a1: Test, a2: Test, b1: Test)
    requires Finished(a1, a2, b1)
    ensures PageAverages([a2, a1]) == (9.0, 7.5)
  {
    ExamplePrefixes(a2, a1, b1);
    assert TotalScore([a2]) == 10;
    assert TotalScore([a2, a1]) == 18;
  }

  lemma NamesOf(a1: Test, a2: Test, b1: Test)
    requires Finished(a1, a2, b1)
    ensures Names([a1, a2, b1]) == ["A", "B"]
  {
    ExamplePrefixes(a1, a2, b1);
    assert Names([a1]) == ["A"];
    assert Names([a1, a2]) == ["A"];
  }

  lemma AccumulateOf(a1: Test, a2: Test, b1: Test)
    requires Finished(a1, a2, b1)
    ensures Accumulate([a1, a2, b1]) == map["A" := (18, 2), "B" := (6, 1)]
  {
    ExamplePrefixes(a1, a2, b1);
    assert Accumulate([a1]) == map["A" := (8, 1)];
    assert Accumulate([a1, a2]) == map["A" := (18, 2)];
  }

  lemma ExampleGroupOf(acc: map<string, (nat, nat)>)
    requires acc == map["A" := (18, 2), "B" := (6, 1)]
    ensures GroupOf(acc, "A") == Group("A", 9.0, 2)
    ensures GroupOf(acc, "B") == Group("B", 6.0, 1)
  {
    assert acc["A"] == (18, 2) && acc["B"] == (6, 1);
  }

  /** The page of student A lists the two finished tests, latest first, averaging 9 points, grade 7.5. */
  lemma StudentExample()
    ensures LeaderboardStudent(ExampleStore(), "A")
         == StudentSummary("A", [ExampleTest("t2", "A", 10, 200), ExampleTest("t1", "A", 8, 100)], 9.0, 7.5)
  {
    var a1, a2, b1 := ExampleTest("t1", "A", 8, 100), ExampleTest("t2", "A", 10, 200), ExampleTest("t3", "B", 6, 150);
    ExampleMatched();
    StudentATestsOf(a1, a2, b1);
    LatestFirst(a1, a2, b1);
    StudentAAverages(a1, a2, b1);
  }

  lemma ExampleGroups()
    ensures Groups(ExampleStore()) == [Group("A", 9.0, 2), Group("B", 6.0, 1)]
  {
    var a1, a2, b1 := ExampleTest("t1", "A", 8, 100), ExampleTest("t2", "A", 10, 200), ExampleTest("t3", "B", 6, 150);
    var acc := map["A" := (18, 2), "B" := (6, 1)];
    ExampleMatched();
    NamesOf(a1, a2, b1);
    AccumulateOf(a1, a2, b1);
    ExampleGroupOf(acc);
    var gs := Groups(ExampleStore());
    assert |gs| == 2 && gs[0] == GroupOf(acc, "A") && gs[1] == GroupOf(acc, "B");
  }

  /** Two groups already in order stay in order, and each gets its grade. */
  lemma RankTwo(g1: Group, g2: Group)
    requires g1.averageScore > g2.averageScore
    ensures Graded(SortBy([g1, g2], HigherAverage)) == [WithGrade(g1), WithGrade(g2)]
  {
    assert [g1, g2][1..] == [g2] && [g2][1..] == [];
    assert SortBy([g2], HigherAverage) == [g2];
    assert SortBy([g1, g2], HigherAverage) == [g1, g2];
  }

  /** The professors see A first (average 9, grade 7.5, two tests), then B (6, 5, one test). */
  lemma GlobalExample()
    ensures GlobalLeaderboard(ExampleStore()) == [Entry("A", 9.0, 2, 7.5), Entry("B", 6.0, 1, 5.0)]
  {
    ExampleGroups();
    RankTwo(Group("A", 9.0, 2), Group("B", 6.0, 1));
  }
}

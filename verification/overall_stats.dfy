/** The overall statistics card. It works on `Object.values(questionsData)`:
    the question records in the map's enumeration order, given here as a
    sequence. Every figure is shown to be independent of that order. */
module OverallStats {
  import opened AppData
  import opened Percentage

  /** `questions.length`: zero exactly when there is no record. */
  function TotalQuestions(questions: seq<Question>): (n: nat)
    ensures n == 0 <==> questions == []
  {
    |questions|
  }

  /** `questions.filter(q => q.completionStatus === 'Completed').length`. */
  function CompletedQuestions(questions: seq<Question>): (c: nat)
    ensures c <= TotalQuestions(questions)
  {
    if questions == [] then 0
    else (if questions[0].completionStatus == Completed then 1 else 0) + CompletedQuestions(questions[1..])
  }

  /** None is counted exactly when no record is completed, and all are
      counted exactly when every record is. */
  lemma {:induction false} CompletedQuestionsEnds(questions: seq<Question>)
    ensures CompletedQuestions(questions) == 0
        <==> forall i :: 0 <= i < |questions| ==> questions[i].completionStatus != Completed
    ensures CompletedQuestions(questions) == |questions|
        <==> forall i :: 0 <= i < |questions| ==> questions[i].completionStatus == Completed
  {
    if questions != [] {
      CompletedQuestionsEnds(questions[1..]);
      assert forall i :: 1 <= i < |questions| ==> questions[i] == questions[1..][i - 1];
    }
  }

  /** `overallPercentage`: 0 with no questions, otherwise the completed share
      rounded half up; 100 exactly when at least 199 of every 200 are
      completed. */
  function OverallPercentage(questions: seq<Question>): (percent: int)
    ensures 0 <= percent <= 100
    ensures |questions| == 0 ==> percent == 0
    ensures |questions| > 0 ==>
      percent == RoundedPercent(CompletedQuestions(questions), TotalQuestions(questions))
    ensures |questions| > 0 ==>
      (percent == 100 <==> 200 * CompletedQuestions(questions) >= 199 * |questions|)
  {
    var n := TotalQuestions(questions);
    if n == 0 then 0
    else
      var c := CompletedQuestions(questions);
      RoundedPercentBounds(c, n);
      FullPercentThreshold(c, n);
      RoundedPercent(c, n)
  }

  /** No record has a negative attempt counter. */
  predicate CountersNonNegative(questions: seq<Question>) {
    forall j :: 0 <= j < |questions| ==> questions[j].totalAttempts >= 0
  }

  /** `questions.reduce((sum, q) => sum + q.totalAttempts, 0)`: never
      negative while no counter is. */
  function TotalAttempts(questions: seq<Question>): (t: int)
    ensures CountersNonNegative(questions) ==> t >= 0
  {
    if questions == [] then 0 else questions[0].totalAttempts + TotalAttempts(questions[1..])
  }

  /** With no negative counter, the total is at least every single
      question's attempts (and so never negative). */
  lemma {:induction false} TotalAttemptsCoversEach(questions: seq<Question>, i: int)
    requires CountersNonNegative(questions)
    requires 0 <= i < |questions|
    ensures TotalAttempts(questions) >= questions[i].totalAttempts >= 0
  {
    if i > 0 {
      TotalAttemptsCoversEach(questions[1..], i - 1);
    }
  }

  lemma {:induction false} AttemptsConcat(a: seq<Question>, b: seq<Question>)
    ensures TotalAttempts(a + b) == TotalAttempts(a) + TotalAttempts(b)
  {
    if a == [] {
      assert a + b == b;
    } else {
      assert (a + b)[1..] == a[1..] + b;
      AttemptsConcat(a[1..], b);
    }
  }

  lemma {:induction false} CompletedConcat(a: seq<Question>, b: seq<Question>)
    ensures CompletedQuestions(a + b) == CompletedQuestions(a) + CompletedQuestions(b)
  {
    if a == [] {
      assert a + b == b;
    } else {
      assert (a + b)[1..] == a[1..] + b;
      CompletedConcat(a[1..], b);
    }
  }

  /** Taking one record out of the middle takes its share out of each total. */
  lemma AttemptsWithout(b: seq<Question>, k: int)
    requires 0 <= k < |b|
    ensures TotalAttempts(b) == b[k].totalAttempts + TotalAttempts(b[..k] + b[k + 1..])
  {
    var left, tail := b[..k], b[k..];
    assert b == left + tail;
    AttemptsConcat(left, tail);
    assert tail[1..] == b[k + 1..];
    AttemptsConcat(left, b[k + 1..]);
  }

  lemma CompletedWithout(b: seq<Question>, k: int)
    requires 0 <= k < |b|
    ensures CompletedQuestions(b) == CompletedQuestions([b[k]]) + CompletedQuestions(b[..k] + b[k + 1..])
  {
    var left, x, right := b[..k], [b[k]], b[k + 1..];
    assert b == left + (x + right);
    CompletedConcat(left, x + right);
    CompletedConcat(x, right);
    CompletedConcat(left, right);
  }

  /** Removing the same record from two rearrangements of each other leaves
      two rearrangements of each other. */
  lemma MultisetWithout(a: seq<Question>, b: seq<Question>, k: int)
    requires a != [] && 0 <= k < |b| && b[k] == a[0]
    requires multiset(a) == multiset(b)
    ensures multiset(a[1..]) == multiset(b[..k] + b[k + 1..])
  {
    var x := multiset([a[0]]);
    assert a == [a[0]] + a[1..];
    assert b == b[..k] + [b[k]] + b[k + 1..];
    assert multiset(a) == x + multiset(a[1..]);
    assert multiset(b) == x + multiset(b[..k] + b[k + 1..]);
    assert multiset(a[1..]) == multiset(a) - x;
    assert multiset(b[..k] + b[k + 1..]) == multiset(b) - x;
  }

  /** The figures do not depend on the order in which the map enumerates
      its records: any rearrangement gives the same totals. */
  lemma {:induction false} StatsOrderFree(a: seq<Question>, b: seq<Question>)
    requires multiset(a) == multiset(b)
    ensures TotalQuestions(a) == TotalQuestions(b)
    ensures CompletedQuestions(a) == CompletedQuestions(b)
    ensures TotalAttempts(a) == TotalAttempts(b)
    ensures OverallPercentage(a) == OverallPercentage(b)
    decreases |a|
  {
    assert |a| == |multiset(a)| == |multiset(b)| == |b|;
    if a != [] {
      assert a[0] in multiset(b);
      var k :| 0 <= k < |b| && b[k] == a[0];
      MultisetWithout(a, b, k);
      StatsOrderFree(a[1..], b[..k] + b[k + 1..]);
      AttemptsWithout(b, k);
      AttemptsWithout(a, 0);
      CompletedWithout(b, k);
      CompletedWithout(a, 0);
      assert a[..0] + a[1..] == a[1..];
    }
  }
}

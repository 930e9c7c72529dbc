/** The per-playlist details view: the best speedrun banner and one table
    row per question the playlist lists, with colour-coded difficulty and
    the question's average attempt time. */
module PlaylistDetails {
  import opened Wrappers
  import opened Text
  import opened AppData

  // ---------------------------------------------------------------------
  // Difficulty colours
  // ---------------------------------------------------------------------

  const EasyColor := "#2ecc71"
  const MediumColor := "#f1c40f"
  const HardColor := "#e74c3c"
  const DefaultColor := "var(--primary-text)"

  /** `getDifficultyColor`: `easy`, `medium` and `hard`, in any letter case,
      get their own colours; anything else, a missing value included, gets
      the default text colour. */
  function DifficultyColor(difficulty: Option<string>): (color: string)
    ensures color == EasyColor <==> difficulty.Some? && ToLower(difficulty.value) == "easy"
    ensures color == MediumColor <==> difficulty.Some? && ToLower(difficulty.value) == "medium"
    ensures color == HardColor <==> difficulty.Some? && ToLower(difficulty.value) == "hard"
    ensures color == DefaultColor <==>
      difficulty.None? || ToLower(difficulty.value) !in {"easy", "medium", "hard"}
  {
    match difficulty
    case None => DefaultColor
    case Some(d) =>
      var key := ToLower(d);
      if key == "easy" then EasyColor
      else if key == "medium" then MediumColor
      else if key == "hard" then HardColor
      else DefaultColor
  }

  /** Two spellings that differ only in the case of their letters get the
      same colour. */
  lemma DifficultyColorIgnoresCase(a: string, b: string)
    requires |a| == |b|
    requires forall i :: 0 <= i < |a| ==> LowerChar(a[i]) == LowerChar(b[i])
    ensures DifficultyColor(Some(a)) == DifficultyColor(Some(b))
  {
    assert ToLower(a) == ToLower(b);
  }

  // ---------------------------------------------------------------------
  // Durations
  // ---------------------------------------------------------------------

  /** Truncation toward zero. */
  function Trunc(x: real): int {
    if x >= 0.0 then x.Floor else -((-x).Floor)
  }

  /** JavaScript's `%` on numbers: the remainder of truncated division, with
      the sign of the dividend. */
  function JsRemainder(x: real, d: real): real
    requires d != 0.0
  {
    x - d * Trunc(x / d) as real
  }

  /** The remainder by 60 keeps the sign of the dividend and is smaller
      than 60 in size. */
  lemma RemainderBounds(x: real)
    ensures x >= 0.0 ==> 0.0 <= JsRemainder(x, 60.0) < 60.0
    ensures x <= 0.0 ==> -60.0 < JsRemainder(x, 60.0) <= 0.0
  {
  }

  /** The details view's `formatTime`: "N/A" for zero, otherwise whole
      minutes and whole remaining seconds, unpadded, as `<m>m <s>s`. */
  function FormatDuration(seconds: real): (text: string)
    ensures seconds == 0.0 <==> text == "N/A"
  {
    if seconds == 0.0 then "N/A"
    else IntToString((seconds / 60.0).Floor) + "m " + IntToString(JsRemainder(seconds, 60.0).Floor) + "s"
  }

  /** For a positive duration the two figures split its whole seconds:
      minutes times sixty plus seconds is the floor of the duration, and
      the seconds figure lies in 0..59. */
  lemma DurationParts(seconds: real)
    requires seconds > 0.0
    ensures var m, s := (seconds / 60.0).Floor, JsRemainder(seconds, 60.0).Floor;
      && FormatDuration(seconds) == NatToString(m) + "m " + NatToString(s) + "s"
      && m >= 0 && 0 <= s < 60 && m * 60 + s == seconds.Floor
  {
    var m := (seconds / 60.0).Floor;
    var r := JsRemainder(seconds, 60.0);
    assert r == seconds - 60.0 * m as real;
    var s := r.Floor;
    assert (m * 60 + s) as real <= seconds < (m * 60 + s) as real + 1.0;
  }

  /** A whole number of seconds shows as its quotient and remainder by 60. */
  lemma WholeSecondsDuration(n: nat)
    requires n > 0
    ensures FormatDuration(n as real) == NatToString(n / 60) + "m " + NatToString(n % 60) + "s"
  {
    DurationParts(n as real);
    var m, s := (n as real / 60.0).Floor, JsRemainder(n as real, 60.0).Floor;
    assert (n as real).Floor == n;
    QuotientRemainder60(n, m, s);
  }

  /** Euclidean division by 60 is determined by its defining property. */
  lemma QuotientRemainder60(n: int, m: int, s: int)
    requires m * 60 + s == n && 0 <= s < 60
    ensures n / 60 == m && n % 60 == s
  {
  }

  // ---------------------------------------------------------------------
  // Best speedrun
  // ---------------------------------------------------------------------

  /** `Math.min(...runs.map(run => run.totalTime))` on a non-empty history. */
  function MinTotalTime(runs: seq<SpeedrunRun>): (m: int)
    requires |runs| > 0
    ensures forall k :: 0 <= k < |runs| ==> m <= runs[k].totalTime
    ensures exists k :: 0 <= k < |runs| && runs[k].totalTime == m
  {
    if |runs| == 1 then runs[0].totalTime
    else
      var rest := MinTotalTime(runs[1..]);
      assert forall k :: 1 <= k < |runs| ==> runs[k] == runs[1..][k - 1];
      if runs[0].totalTime <= rest then runs[0].totalTime else rest
  }

  /** `bestSpeedrun`: null for an empty history, otherwise the smallest
      recorded total time. */
  function BestSpeedrun(history: seq<SpeedrunRun>): (best: Option<int>)
    ensures best.None? <==> |history| == 0
    ensures best.Some? ==> forall k :: 0 <= k < |history| ==> best.value <= history[k].totalTime
    ensures best.Some? ==> exists k :: 0 <= k < |history| && history[k].totalTime == best.value
  {
    if |history| == 0 then None else Some(MinTotalTime(history))
  }

  /** The banner is rendered only for a truthy best: a missing best and a
      best of 0 both hide it. When shown it never reads "N/A". */
  function SpeedrunBanner(history: seq<SpeedrunRun>): (banner: Option<string>)
    ensures banner.Some? <==> |history| > 0 && BestSpeedrun(history).value != 0
    ensures banner.Some? ==> banner.value == FormatDuration(BestSpeedrun(history).value as real)
    ensures banner.Some? ==> banner.value != "N/A"
  {
    match BestSpeedrun(history)
    case None => None
    case Some(best) => if best == 0 then None else Some(FormatDuration(best as real))
  }

  // ---------------------------------------------------------------------
  // Average attempt time
  // ---------------------------------------------------------------------

  /** `history.reduce((sum, h) => sum + h.totalTime, 0)`: never negative
      while no attempt's time is. */
  function SumTotalTime(history: seq<Attempt>): (sum: int)
    ensures (forall k :: 0 <= k < |history| ==> history[k].totalTime >= 0) ==> sum >= 0
  {
    if history == [] then 0 else history[0].totalTime + SumTotalTime(history[1..])
  }

  /** The per-row average: 0 for an empty history, otherwise the exact mean
      of the total times. */
  function AverageTime(history: seq<Attempt>): (avg: real)
    ensures |history| == 0 ==> avg == 0.0
    ensures |history| > 0 ==> avg * |history| as real == SumTotalTime(history) as real
  {
    if |history| > 0 then SumTotalTime(history) as real / |history| as real else 0.0
  }

  lemma {:induction false} SumTotalTimeBetween(history: seq<Attempt>, lo: int, hi: int)
    requires forall k :: 0 <= k < |history| ==> lo <= history[k].totalTime <= hi
    ensures |history| * lo <= SumTotalTime(history) <= |history| * hi
  {
    if history != [] {
      SumTotalTimeBetween(history[1..], lo, hi);
      assert |history| * lo == lo + (|history| - 1) * lo;
      assert |history| * hi == hi + (|history| - 1) * hi;
    }
  }

  /** The mean lies between the shortest and the longest attempt. */
  lemma AverageBetween(history: seq<Attempt>, lo: int, hi: int)
    requires |history| > 0
    requires forall k :: 0 <= k < |history| ==> lo <= history[k].totalTime <= hi
    ensures lo as real <= AverageTime(history) <= hi as real
  {
    SumTotalTimeBetween(history, lo, hi);
    QuotientBetween(SumTotalTime(history), |history|, lo, hi, AverageTime(history));
  }

  /** A quotient of a sum of `count` values lies between their bounds. */
  lemma QuotientBetween(sum: int, count: int, lo: int, hi: int, avg: real)
    requires count > 0
    requires avg * count as real == sum as real
    requires count * lo <= sum <= count * hi
    ensures lo as real <= avg <= hi as real
  {
    ProductAsReal(count, lo);
    ProductAsReal(count, hi);
    CancelPositive(lo as real, avg, count as real);
    CancelPositive(avg, hi as real, count as real);
  }

  lemma ProductAsReal(a: int, b: int)
    ensures (a * b) as real == a as real * b as real
  {
  }

  /** Cancelling a positive factor from a non-strict inequality. */
  lemma CancelPositive(a: real, b: real, n: real)
    requires n > 0.0
    ensures a * n <= b * n ==> a <= b
  {
    if a > b {
      assert (a - b) * n > 0.0;
    }
  }

  // ---------------------------------------------------------------------
  // Table rows
  // ---------------------------------------------------------------------

  /** What one table row shows. */
  datatype DetailRow = DetailRow(
    key: string,
    title: Option<string>,
    difficulty: string,
    color: string,
    status: Status,
    attempts: int,
    averageTime: string)

  /** One table row: the question's own fields, the colour of its
      difficulty, and its average time, shown as "N/A" exactly when that
      average is zero. */
  function RowOf(q: Question): (row: DetailRow)
    ensures row.key == q.url && row.title == q.title && row.difficulty == q.difficulty
    ensures row.status == q.completionStatus && row.attempts == q.totalAttempts
    ensures row.color == DifficultyColor(Some(q.difficulty))
    ensures row.color == DefaultColor <==> ToLower(q.difficulty) !in {"easy", "medium", "hard"}
    ensures row.averageTime == FormatDuration(AverageTime(q.history))
    ensures row.averageTime == "N/A" <==> AverageTime(q.history) == 0.0
  {
    DetailRow(q.url, q.title, q.difficulty, DifficultyColor(Some(q.difficulty)),
              q.completionStatus, q.totalAttempts, FormatDuration(AverageTime(q.history)))
  }

  /** A question never attempted shows "N/A" as its average time; one whose
      attempts add up to a non-zero time shows a duration. */
  lemma RowAverageShown(q: Question)
    ensures q.history == [] ==> RowOf(q).averageTime == "N/A"
    ensures q.history != [] && SumTotalTime(q.history) != 0 ==> RowOf(q).averageTime != "N/A"
  {
    if q.history != [] && SumTotalTime(q.history) != 0 {
      var n := |q.history| as real;
      assert AverageTime(q.history) * n != 0.0;
    }
  }

  /** `playlist.urls.map(url => questionsData[url])` with the missing
      entries dropped, as the row rendering does. */
  function PresentQuestions(urls: seq<string>, questions: Questions): (qs: seq<Question>)
    ensures |qs| <= |urls|
    ensures (forall j :: 0 <= j < |urls| ==> urls[j] !in questions) <==> qs == []
    ensures (forall j :: 0 <= j < |urls| ==> urls[j] in questions) ==>
      |qs| == |urls| && forall i :: 0 <= i < |urls| ==> qs[i] == questions[urls[i]]
  {
    if urls == [] then []
    else
      var rest := PresentQuestions(urls[1..], questions);
      assert forall j :: 1 <= j < |urls| ==> urls[j] == urls[1..][j - 1];
      if urls[0] in questions then [questions[urls[0]]] + rest else rest
  }

  /** Rows keep the playlist's order: the rows of a concatenation are the
      rows of each part in turn. */
  lemma {:induction false} PresentQuestionsConcat(a: seq<string>, b: seq<string>, questions: Questions)
    ensures PresentQuestions(a + b, questions) == PresentQuestions(a, questions) + PresentQuestions(b, questions)
  {
    if a == [] {
      assert a + b == b;
    } else {
      assert (a + b)[1..] == a[1..] + b;
      PresentQuestionsConcat(a[1..], b, questions);
    }
  }

  /** Every row shows a question the playlist lists and the map holds. */
  lemma {:induction false} PresentQuestionsListed(urls: seq<string>, questions: Questions, i: nat)
    requires i < |PresentQuestions(urls, questions)|
    ensures exists j :: (0 <= j < |urls| && urls[j] in questions
      && PresentQuestions(urls, questions)[i] == questions[urls[j]])
  {
    var rest := PresentQuestions(urls[1..], questions);
    if urls[0] in questions && i == 0 {
      assert PresentQuestions(urls, questions)[0] == questions[urls[0]];
    } else {
      var i' := if urls[0] in questions then i - 1 else i;
      assert PresentQuestions(urls, questions)[i] == rest[i'];
      PresentQuestionsListed(urls[1..], questions, i');
      var j :| 0 <= j < |urls[1..]| && urls[1..][j] in questions && rest[i'] == questions[urls[1..][j]];
      assert urls[j + 1] == urls[1..][j];
    }
  }

  /** The table body: one row per listed question that exists, in order. */
  function DetailRows(playlist: Playlist, questions: Questions): (rows: seq<DetailRow>)
    ensures |rows| == |PresentQuestions(playlist.urls, questions)|
    ensures forall i :: 0 <= i < |rows| ==> rows[i] == RowOf(PresentQuestions(playlist.urls, questions)[i])
  {
    var qs := PresentQuestions(playlist.urls, questions);
    seq(|qs|, i requires 0 <= i < |qs| => RowOf(qs[i]))
  }
}

/**
 The assessment part of the home page: the nine fixed questions, how an
 answer is phrased back to the avatar and labelled, the response record, and
 the session analytics derived from the list of records.
 */
module Assessment {
  import opened Wrappers

  // ---------------------------------------------------------------------------
  // Questions

  const Questions: seq<string> := [
    "In the past two weeks, have you felt like you didn't enjoy things you usually like?",
    "Have you been feeling sad, down, or like things might not get better?",
    "Has it been hard to sleep—either too much or not enough?",
    "Have you been feeling really tired, even when you rest?",
    "Have you been eating way less, or a lot more, than usual?",
    "Have you felt bad about yourself, or like you've let yourself or your family down?",
    "Has it been hard to focus, like when reading or watching TV?",
    "Have people noticed you moving or speaking more slowly, or being really restless?",
    "Have you had any thoughts about not wanting to be here—or hurting yourself?"
  ]

  /** `getQuestionText`: question `n` for 1..9, question 1 for any other number. */
  function QuestionText(n: int): (text: string)
    ensures text in Questions
  {
    if 1 <= n <= 9 then Questions[n - 1] else Questions[0]
  }

  /** The number of the question whose text is `text`, if any: the inverse of
      `QuestionText` on 1..9. */
  function QuestionNumber(text: string): (n: Option<int>)
    ensures n.Some? ==> 1 <= n.value <= 9
  {
    if text == Questions[0] then Some(1)
    else if text == Questions[1] then Some(2)
    else if text == Questions[2] then Some(3)
    else if text == Questions[3] then Some(4)
    else if text == Questions[4] then Some(5)
    else if text == Questions[5] then Some(6)
    else if text == Questions[6] then Some(7)
    else if text == Questions[7] then Some(8)
    else if text == Questions[8] then Some(9)
    else None
  }

  /** Numbers outside 1..9 fall back to the first question. */
  lemma QuestionFallback(n: int)
    requires !(1 <= n <= 9)
    ensures QuestionText(n) == QuestionText(1)
  {
  }

  /** The nine texts are distinct, so a recorded question text identifies its
      number within 1..9. */
  lemma QuestionRoundTrip(n: int)
    requires 1 <= n <= 9
    ensures QuestionNumber(QuestionText(n)) == Some(n)
  {
    QuestionLengths();
  }

  /** The nine texts have nine different lengths. */
  lemma QuestionLengths()
    ensures |Questions[0]| == 83 && |Questions[1]| == 69 && |Questions[2]| == 56
    ensures |Questions[3]| == 55 && |Questions[4]| == 57 && |Questions[5]| == 82
    ensures |Questions[6]| == 60 && |Questions[7]| == 81 && |Questions[8]| == 75
  {
  }

  // ---------------------------------------------------------------------------
  // Answers and how they are phrased

  /** The value an answer button passes: a number, the string "skip" that the
      record type declares, or the string "-" that the Skip button passes. */
  datatype Score = Points(n: int) | Skip | Hyphen

  /** What is said to the avatar and what is recorded as the answer's label. */
  datatype Phrasing = Phrasing(speech: string, scoreText: string)

  const Labels: seq<string> := ["Not at all", "Several days", "More than half the days", "Nearly every day"]
  const SkipSpeech := "I would like to skip this question"
  const SkipLabel := "Skip"

  /** The five options the analytics view lists, in order; the selected index
      points into this list. */
  const Options: seq<string> := Labels + [SkipLabel]

  /** The score-to-speech conversion of `handleAssessmentResponse`: "skip" has
      its own sentence, numbers 0..3 their label, everything else (including
      "-") the label of 0. */
  function Phrase(score: Score): (p: Phrasing)
    ensures p.scoreText in Options
    ensures score != Skip ==> p.speech == p.scoreText && p.scoreText in Labels
  {
    if score == Skip then Phrasing(SkipSpeech, SkipLabel)
    else
      var text := if score.Points? && 0 <= score.n < 4 then Labels[score.n] else Labels[0];
      Phrasing(text, text)
  }

  /** The phrasing of every answer, case by case. */
  lemma PhraseCases(score: Score)
    ensures score == Skip ==> Phrase(score) == Phrasing("I would like to skip this question", "Skip")
    ensures score == Points(0) ==> Phrase(score) == Phrasing("Not at all", "Not at all")
    ensures score == Points(1) ==> Phrase(score) == Phrasing("Several days", "Several days")
    ensures score == Points(2) ==> Phrase(score) == Phrasing("More than half the days", "More than half the days")
    ensures score == Points(3) ==> Phrase(score) == Phrasing("Nearly every day", "Nearly every day")
    ensures !(score == Skip || (score.Points? && 0 <= score.n < 4)) ==> Phrase(score) == Phrasing("Not at all", "Not at all")
    ensures score != Skip ==> Phrase(score).speech == Phrase(score).scoreText
    ensures Phrase(score).scoreText in Options
  {
  }

  // ---------------------------------------------------------------------------
  // Response records

  /** One recorded answer; the timestamp is an opaque string. */
  datatype Response = Response(
    questionNumber: int,
    question: string,
    score: Score,
    scoreText: string,
    timestamp: string,
    isCritical: bool)

  /** The record `handleAssessmentResponse` appends. */
  function NewResponse(questionNumber: int, score: Score, timestamp: string): (r: Response)
    ensures WellFormed(r)
    ensures r.questionNumber == questionNumber && r.score == score && r.timestamp == timestamp
  {
    Response(questionNumber, QuestionText(questionNumber), score, Phrase(score).scoreText, timestamp, score == Points(3))
  }

  /** A record as the handler builds it: the question of its number, the label
      of its score, and critical exactly when the score is 3. */
  predicate WellFormed(r: Response)
  {
    && r.question == QuestionText(r.questionNumber)
    && r.scoreText == Phrase(r.score).scoreText
    && (r.isCritical <==> r.score == Points(3))
  }

  // ---------------------------------------------------------------------------
  // Session analytics

  /** The `selected` field: 4 for "skip", the score itself otherwise. `None`
      stands for the string "-", which is passed through and equals no option
      index. */
  function SelectedIndex(score: Score): (selected: Option<int>)
    ensures selected.Some? <==> score != Hyphen
    ensures selected.Some? ==> (selected.value == 4 && score == Skip) || score == Points(selected.value)
  {
    match score
    case Skip => Some(4)
    case Points(n) => Some(n)
    case Hyphen => None
  }

  /** One row of `sessionAnalytics.responses`. */
  datatype Row = Row(question: string, selected: Option<int>, selectedText: string, timestamp: string, isCritical: bool)

  function RowOf(r: Response): Row
  {
    Row(r.question, SelectedIndex(r.score), r.scoreText, r.timestamp, r.isCritical)
  }

  /** The derived analytics (the identifiers, the character name and the
      clock-dependent fields are not modelled). */
  datatype Analytics = Analytics(hasCriticalResponses: bool, criticalCount: nat, responses: seq<Row>)

  /** `filter(r => r.isCritical).length` */
  function CriticalCount(rs: seq<Response>): (count: nat)
    ensures count <= |rs|
  {
    if rs == [] then 0
    else CriticalCount(rs[..|rs| - 1]) + (if rs[|rs| - 1].isCritical then 1 else 0)
  }

  /** `some(r => r.isCritical)` */
  predicate AnyCritical(rs: seq<Response>)
  {
    exists i :: 0 <= i < |rs| && rs[i].isCritical
  }

  function SessionAnalytics(rs: seq<Response>): (a: Analytics)
    ensures |a.responses| == |rs| && a.criticalCount <= |rs|
    ensures forall i :: 0 <= i < |rs| ==> a.responses[i] == RowOf(rs[i])
  {
    Analytics(AnyCritical(rs), CriticalCount(rs), seq(|rs|, i requires 0 <= i < |rs| => RowOf(rs[i])))
  }

  /** The rows flagged critical (`criticalResponses`). */
  function CriticalRows(rows: seq<Row>): (critical: seq<Row>)
    ensures forall k :: 0 <= k < |critical| ==> critical[k].isCritical
  {
    if rows == [] then []
    else CriticalRows(rows[..|rows| - 1]) + (if rows[|rows| - 1].isCritical then [rows[|rows| - 1]] else [])
  }

  /** There is a critical response exactly when the critical count is positive. */
  lemma {:induction false} CriticalFlagMatchesCount(rs: seq<Response>)
    ensures AnyCritical(rs) <==> CriticalCount(rs) > 0
    decreases |rs|
  {
    if rs != [] {
      var init := rs[..|rs| - 1];
      CriticalFlagMatchesCount(init);
      if AnyCritical(init) {
        var i :| 0 <= i < |init| && init[i].isCritical;
        assert rs[i].isCritical;
      }
      if AnyCritical(rs) && !rs[|rs| - 1].isCritical {
        var i :| 0 <= i < |rs| && rs[i].isCritical;
        assert init[i].isCritical;
      }
    }
  }

  /** The analytics list one row per record, in order, each showing that
      record; the critical flag and count agree, and the critical rows are as
      many as the count says. */
  lemma AnalyticsSummarise(rs: seq<Response>)
    ensures var a := SessionAnalytics(rs);
      && |a.responses| == |rs|
      && (forall i :: 0 <= i < |rs| ==>
            && a.responses[i].question == rs[i].question
            && a.responses[i].selectedText == rs[i].scoreText
            && a.responses[i].isCritical == rs[i].isCritical)
      && (a.hasCriticalResponses <==> a.criticalCount > 0)
      && |CriticalRows(a.responses)| == a.criticalCount
  {
    CriticalFlagMatchesCount(rs);
    CriticalRowsCounted(rs);
  }

  lemma {:induction false} CriticalRowsCounted(rs: seq<Response>)
    ensures |CriticalRows(SessionAnalytics(rs).responses)| == CriticalCount(rs)
    decreases |rs|
  {
    if rs != [] {
      var init := rs[..|rs| - 1];
      CriticalRowsCounted(init);
      var rows := SessionAnalytics(rs).responses;
      assert rows[..|rows| - 1] == SessionAnalytics(init).responses;
    }
  }

  /** For an answer the buttons can give a record, the selected option of its
      row is the label it was recorded with. */
  lemma SelectionShowsRecordedLabel(r: Response)
    requires WellFormed(r)
    requires r.score == Skip || (r.score.Points? && 0 <= r.score.n < 4)
    ensures SelectedIndex(r.score).Some?
    ensures 0 <= SelectedIndex(r.score).value < |Options|
    ensures Options[SelectedIndex(r.score).value] == r.scoreText
  {
  }

  // ---------------------------------------------------------------------------
  // Overall mood

  /** The records the mood is computed over: those whose score is not "skip". */
  function Scored(rs: seq<Response>): (scored: seq<Response>)
    ensures |scored| <= |rs|
    ensures forall k :: 0 <= k < |scored| ==> scored[k].score != Skip && scored[k] in rs
  {
    if rs == [] then []
    else Scored(rs[..|rs| - 1]) + (if rs[|rs| - 1].score != Skip then [rs[|rs| - 1]] else [])
  }

  /** A JavaScript value the score reduction can produce: a number, or a
      string once a string score was added (which divides to NaN). */
  datatype JsValue = Num(n: int) | Text

  /** `reduce((sum, r) => sum + r.score, 0)` with JavaScript's `+`: numbers
      add, and anything added to or from a string is a string. */
  function ScoreSum(rs: seq<Response>): JsValue
  {
    if rs == [] then Num(0)
    else
      match (ScoreSum(rs[..|rs| - 1]), rs[|rs| - 1].score)
      case (Num(s), Points(n)) => Num(s + n)
      case _ => Text
  }

  /** The plain sum of the numeric scores. */
  function PointsTotal(rs: seq<Response>): int
  {
    if rs == [] then 0
    else PointsTotal(rs[..|rs| - 1]) + (if rs[|rs| - 1].score.Points? then rs[|rs| - 1].score.n else 0)
  }

  /** The mood thresholds on the average `sum / count`, as the view compares it. */
  function MoodOfAverage(average: real): string
  {
    if average <= 1.0 then "Positive"
    else if average <= 2.0 then "Moderate"
    else "Concerning"
  }

  /** The same thresholds restated on integers: `sum / count <= 1` is
      `sum <= count`, and `sum / count <= 2` is `sum <= 2 * count`. */
  function MoodBucket(sum: int, count: nat): string
    requires count > 0
  {
    if sum <= count then "Positive"
    else if sum <= 2 * count then "Moderate"
    else "Concerning"
  }

  /** The "Overall Mood" insight. A NaN average fails both comparisons, so a
      string sum reads as "Concerning". */
  function OverallMood(rs: seq<Response>): (mood: string)
    ensures mood == "No responses yet" <==> |rs| == 0
    ensures mood in {"No responses yet", "No scored responses", "Positive", "Moderate", "Concerning"}
  {
    if |rs| == 0 then "No responses yet"
    else
      var scored := Scored(rs);
      if |scored| == 0 then "No scored responses"
      else match ScoreSum(scored)
        case Num(s) => MoodBucket(s, |scored|)
        case Text => "Concerning"
  }

  /** The integer thresholds agree with the average's. */
  lemma MoodBucketIsAverage(sum: int, count: nat)
    requires count > 0
    ensures MoodBucket(sum, count) == MoodOfAverage(sum as real / count as real)
  {
    AtMostIff(sum as real, count as real, 1.0);
    AtMostIff(sum as real, count as real, 2.0);
  }

  /** For a positive divisor, `x / c <= k` exactly when `x <= k * c`. */
  lemma AtMostIff(x: real, c: real, k: real)
    requires c > 0.0
    ensures x / c <= k <==> x <= k * c
  {
    var q := x / c;
    assert q * c == x;
    if q <= k {
      assert (k - q) * c >= 0.0;
    } else {
      assert (q - k) * c > 0.0;
    }
  }

  /** With numeric scores only, the reduction is the plain sum. */
  lemma {:induction false} NumericSum(rs: seq<Response>)
    requires forall k :: 0 <= k < |rs| ==> rs[k].score.Points?
    ensures ScoreSum(rs) == Num(PointsTotal(rs))
    decreases |rs|
  {
    if rs != [] {
      NumericSum(rs[..|rs| - 1]);
    }
  }

  /** One "-" among the scored records makes the reduction a string. */
  lemma {:induction false} HyphenMakesText(rs: seq<Response>, i: nat)
    requires i < |rs| && rs[i].score == Hyphen
    ensures ScoreSum(rs) == Text
    decreases |rs|
  {
    if i < |rs| - 1 {
      HyphenMakesText(rs[..|rs| - 1], i);
    }
  }

  /** Over records with scores from 0..3 and "skip", the mood is the threshold
      on the real average of the non-skipped scores. */
  lemma MoodIsAverageOfScored(rs: seq<Response>)
    requires forall k :: 0 <= k < |rs| ==> rs[k].score != Hyphen
    requires |Scored(rs)| > 0
    ensures OverallMood(rs) == MoodOfAverage(PointsTotal(Scored(rs)) as real / |Scored(rs)| as real)
  {
    var scored := Scored(rs);
    NumericSum(scored);
    MoodBucketIsAverage(PointsTotal(scored), |scored|);
  }

  /** Any "-" record makes the mood "Concerning", whatever the other scores. */
  lemma HyphenMoodIsConcerning(rs: seq<Response>, i: nat)
    requires i < |rs| && rs[i].score == Hyphen
    ensures OverallMood(rs) == "Concerning"
  {
    var j := ScoredIndex(rs, i);
    HyphenMakesText(Scored(rs), j);
  }

  /** A record that is not "skip" keeps a place in `Scored`. */
  lemma {:induction false} ScoredIndex(rs: seq<Response>, i: nat) returns (j: nat)
    requires i < |rs| && rs[i].score != Skip
    ensures j < |Scored(rs)| && Scored(rs)[j] == rs[i]
    decreases |rs|
  {
    var init := rs[..|rs| - 1];
    if i == |rs| - 1 {
      j := |Scored(init)|;
    } else {
      j := ScoredIndex(init, i);
    }
  }

  /** A non-empty list gives "No scored responses" exactly when every record
      is a skip. */
  lemma AllSkipMood(rs: seq<Response>)
    requires |rs| > 0
    ensures OverallMood(rs) == "No scored responses" <==> forall k :: 0 <= k < |rs| ==> rs[k].score == Skip
  {
    if exists i :: 0 <= i < |rs| && rs[i].score != Skip {
      var i :| 0 <= i < |rs| && rs[i].score != Skip;
      var j := ScoredIndex(rs, i);
    }
  }

  /** Appending a "skip" record to a non-empty list leaves the mood unchanged. */
  lemma SkipKeepsMood(rs: seq<Response>, r: Response)
    requires |rs| > 0 && r.score == Skip
    ensures OverallMood(rs + [r]) == OverallMood(rs)
  {
    assert (rs + [r])[..|rs|] == rs;
    assert Scored(rs + [r]) == Scored(rs);
  }

  // ---------------------------------------------------------------------------
  // Engagement and areas of concern

  /** The "Engagement Level" insight, from the number of records. */
  function Engagement(count: nat): (level: string)
    ensures level == "No responses yet" <==> count == 0
    ensures level in {"No responses yet", "Low", "Moderate", "High"}
  {
    if count == 0 then "No responses yet"
    else if count >= 6 then "High"
    else if count >= 3 then "Moderate"
    else "Low"
  }

  /** How engaged each level is. */
  function EngagementRank(level: string): nat
  {
    if level == "High" then 3
    else if level == "Moderate" then 2
    else if level == "Low" then 1
    else 0
  }

  /** More answers never lower the engagement level. */
  lemma EngagementGrows(a: nat, b: nat)
    requires a <= b
    ensures EngagementRank(Engagement(a)) <= EngagementRank(Engagement(b))
    ensures Engagement(a) == Engagement(b) || EngagementRank(Engagement(a)) < EngagementRank(Engagement(b))
  {
  }

  /** The thresholds of the level: "Low" below 3 answers, "Moderate" from 3,
      "High" from 6. */
  lemma EngagementCases(count: nat)
    ensures 1 <= count < 3 ==> Engagement(count) == "Low"
    ensures 3 <= count < 6 ==> Engagement(count) == "Moderate"
    ensures 6 <= count ==> Engagement(count) == "High"
  {
  }

  /** Decimal digits of a natural number, as a template literal shows it. */
  function Decimal(n: nat): (s: string)
    ensures |s| > 0 && forall k :: 0 <= k < |s| ==> '0' <= s[k] <= '9'
  {
    var d := ['0' + (n % 10) as char];
    if n < 10 then d else Decimal(n / 10) + d
  }

  /** The "Areas of Concern" insight, from the critical count. */
  function ConcernText(count: nat): (text: string)
    ensures text == "None detected" <==> count == 0
  {
    if count == 0 then "None detected"
    else if count == 1 then "1 critical response"
    else
      var text := Decimal(count) + " critical responses";
      assert text[0] != 'N';
      text
  }

  /** "None detected" is shown exactly when there is no critical response. */
  lemma NoConcernIffNoCritical(rs: seq<Response>)
    ensures ConcernText(CriticalCount(rs)) == "None detected" <==> !AnyCritical(rs)
  {
    CriticalFlagMatchesCount(rs);
    var n := CriticalCount(rs);
    if n > 1 {
      var s := ConcernText(n);
      assert s[0] == Decimal(n)[0];
      assert s[0] != 'N';
    }
  }

  // ---------------------------------------------------------------------------
  // The answer buttons of the assessment overlay

  /** The value each of the five buttons passes, as written: the Skip button
      passes "-". */
  function OptionValueAsWritten(i: int): (score: Score)
    requires 0 <= i < |Options|
    ensures i < 4 ==> SelectedIndex(score) == Some(i) && Phrase(score).scoreText == Options[i]
    ensures i == 4 ==> SelectedIndex(score) == None && Phrase(score).scoreText != Options[i]
  {
    if i < 4 then Points(i) else Hyphen
  }

  /** The value each of the five buttons passes, with the Skip button passing
      "skip" as the record type and the analytics expect. */
  function OptionValue(i: int): (score: Score)
    requires 0 <= i < |Options|
    ensures SelectedIndex(score) == Some(i) && Phrase(score).scoreText == Options[i]
  {
    if i < 4 then Points(i) else Skip
  }

  /** As written, pressing Skip phrases the answer as "Not at all" (which
      reaches the avatar only while it is live), records the label "Not at
      all", selects no option, and turns an answer of 0 into a "Concerning"
      mood. */
  lemma SkipButtonAsWrittenMisreports(timestamp: string)
    ensures Phrase(OptionValueAsWritten(4)).speech == "Not at all"
    ensures NewResponse(1, OptionValueAsWritten(4), timestamp).scoreText == "Not at all"
    ensures SelectedIndex(OptionValueAsWritten(4)) == None
    ensures OverallMood([NewResponse(1, Points(0), timestamp), NewResponse(2, OptionValueAsWritten(4), timestamp)]) == "Concerning"
  {
    HyphenMoodIsConcerning([NewResponse(1, Points(0), timestamp), NewResponse(2, OptionValueAsWritten(4), timestamp)], 1);
  }

  /** Corrected: button `i` is shown in the analytics as option `i` with the
      same label, says what that label says (or the skip sentence), and
      pressing Skip leaves the mood of a non-empty session unchanged. */
  lemma OptionRoundTrip(i: int, rs: seq<Response>, questionNumber: int, timestamp: string)
    requires 0 <= i < |Options|
    ensures SelectedIndex(OptionValue(i)) == Some(i)
    ensures Phrase(OptionValue(i)).scoreText == Options[i]
    ensures Phrase(OptionValue(i)).speech == if i == 4 then SkipSpeech else Options[i]
    ensures i == 4 && |rs| > 0 ==> OverallMood(rs + [NewResponse(questionNumber, OptionValue(i), timestamp)]) == OverallMood(rs)
  {
    if i == 4 && |rs| > 0 {
      SkipKeepsMood(rs, NewResponse(questionNumber, OptionValue(i), timestamp));
    }
  }
}

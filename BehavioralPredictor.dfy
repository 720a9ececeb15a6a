/** The behavioral mood predictor: closed-form scoring of six activity
    counters aggregated by the caller over a window of `daysBack` days. */
module BehavioralPredictor {
  import opened Wrappers
  import opened Numerics
  import opened MoodTypes

  /** The counters the database queries produce. */
  datatype Window = Window(
    totalTasks: nat,
    completedTasks: nat,
    upcomingTasks: nat,
    overdueTasks: nat,
    journalEntries: nat,
    totalTime: int)

  /** `journal_entries / days_back` with `days_back == 0` raises. */
  datatype PredictError = DivisionByZero

  /** A caller-side fact: completed tasks are among the tasks counted. */
  predicate Consistent(w: Window) {
    w.completedTasks <= w.totalTasks
  }

  function CompletionRate(w: Window): (r: real)
    ensures w.totalTasks == 0 ==> r == 0.5
    ensures Consistent(w) ==> 0.0 <= r <= 1.0
  {
    if w.totalTasks > 0 then w.completedTasks as real / w.totalTasks as real else 0.5
  }

  /** Valence before the clamp: completion term, overdue penalty, journaling bonus. */
  function RawValence(w: Window, daysBack: int): real
    requires daysBack != 0
  {
    (CompletionRate(w) - 0.5) * 0.6
      - Min(0.4, 0.1 * w.overdueTasks as real)
      + Min(0.2, 0.1 * (w.journalEntries as real / daysBack as real))
  }

  /** Arousal before the clamp: base, deadline urgency, workload. */
  function RawArousal(w: Window): real {
    0.3 + Min(0.4, 0.1 * w.upcomingTasks as real)
      + (if w.totalTime > 0 then Min(0.3, w.totalTime as real / 600.0 * 0.1) else 0.0)
  }

  function Confidence(w: Window): real {
    Min(1.0, (w.totalTasks + w.journalEntries) as real / 20.0)
  }

  function FeaturesOf(w: Window, daysBack: int): Features
    requires daysBack != 0
  {
    Features(
      Round3(CompletionRate(w)),
      w.upcomingTasks,
      w.overdueTasks,
      Round2(w.journalEntries as real / daysBack as real),
      w.totalTime)
  }

  /** `BehavioralMoodPredictor.predict` in closed form. */
  function PredictSpec(w: Window, daysBack: int): Result<MoodEstimate, PredictError> {
    if daysBack == 0 then Failure(DivisionByZero)
    else
      Success(MoodEstimate(
        Round3(Max(-1.0, Min(1.0, RawValence(w, daysBack)))),
        Round3(Max(0.0, Min(1.0, RawArousal(w)))),
        Round3(Confidence(w)),
        BehavioralFeatures(FeaturesOf(w, daysBack))))
  }

  /** The scoring half of `BehavioralMoodPredictor.predict`, accumulating into
      local valence and arousal as the source does. */
  method Predict(w: Window, daysBack: int) returns (r: Result<MoodEstimate, PredictError>)
    ensures r == PredictSpec(w, daysBack)
    ensures r.Success? <==> daysBack != 0
  {
    var completionRate := if w.totalTasks > 0 then w.completedTasks as real / w.totalTasks as real else 0.5;
    if daysBack == 0 {
      return Failure(DivisionByZero);
    }
    var journalingFrequency := w.journalEntries as real / daysBack as real;

    var valence := (completionRate - 0.5) * 0.6;
    if w.overdueTasks > 0 {
      valence := valence - Min(0.4, w.overdueTasks as real * 0.1);
    }
    valence := valence + Min(0.2, journalingFrequency * 0.1);
    assert valence == RawValence(w, daysBack);
    valence := Max(-1.0, Min(1.0, valence));

    var arousal := 0.3;
    arousal := arousal + Min(0.4, w.upcomingTasks as real * 0.1);
    if w.totalTime > 0 {
      arousal := arousal + Min(0.3, (w.totalTime as real / 600.0) * 0.1);
    }
    assert arousal == RawArousal(w);
    arousal := Max(0.0, Min(1.0, arousal));

    var confidence := Min(1.0, (w.totalTasks + w.journalEntries) as real / 20.0);

    var features := Features(
      Round3(completionRate), w.upcomingTasks, w.overdueTasks,
      Round2(journalingFrequency), w.totalTime);
    r := Success(MoodEstimate(Round3(valence), Round3(arousal), Round3(confidence), BehavioralFeatures(features)));
  }

  // ---------------------------------------------------------------------
  // Properties

  /** With consistent counters and a positive window the unclamped valence
      already lies in [-0.7, 0.5], so the clamp to [-1, 1] never changes it. */
  lemma ValenceClampInert(w: Window, daysBack: int)
    requires Consistent(w) && daysBack > 0
    ensures -0.7 <= RawValence(w, daysBack) <= 0.5
    ensures Max(-1.0, Min(1.0, RawValence(w, daysBack))) == RawValence(w, daysBack)
  {
    var cr := CompletionRate(w);
    var jf := w.journalEntries as real / daysBack as real;
    assert jf >= 0.0;
    assert 0.0 <= Min(0.2, 0.1 * jf) <= 0.2;
    assert 0.0 <= Min(0.4, 0.1 * w.overdueTasks as real) <= 0.4;
  }

  /** Arousal lies in [0.3, 1.0] before the clamp, so the clamp is inert. */
  lemma ArousalClampInert(w: Window)
    ensures 0.3 <= RawArousal(w) <= 1.0
    ensures Max(0.0, Min(1.0, RawArousal(w))) == RawArousal(w)
  {
  }

  /** Every successful prediction is in range. */
  lemma PredictInRange(w: Window, daysBack: int)
    requires daysBack != 0
    ensures PredictSpec(w, daysBack).Success?
    ensures InRange(PredictSpec(w, daysBack).value)
    ensures 0.3 <= PredictSpec(w, daysBack).value.arousal
  {
    var v := Max(-1.0, Min(1.0, RawValence(w, daysBack)));
    Round3Within(v, -1.0, 1.0);
    ArousalClampInert(w);
    Round3Within(RawArousal(w), 0.3, 1.0);
    Round3Within(Confidence(w), 0.0, 1.0);
  }

  /** More overdue tasks never raise valence. */
  lemma OverdueNeverRaisesValence(w: Window, more: nat, daysBack: int)
    requires daysBack != 0 && more >= w.overdueTasks
    ensures PredictSpec(w.(overdueTasks := more), daysBack).value.valence
            <= PredictSpec(w, daysBack).value.valence
  {
    var w' := w.(overdueTasks := more);
    assert RawValence(w', daysBack) <= RawValence(w, daysBack);
    var c, c' := Max(-1.0, Min(1.0, RawValence(w, daysBack))), Max(-1.0, Min(1.0, RawValence(w', daysBack)));
    assert c' <= c;
    Round3Monotone(c', c);
  }

  /** More upcoming deadlines never lower arousal. */
  lemma UpcomingNeverLowersArousal(w: Window, more: nat, daysBack: int)
    requires daysBack != 0 && more >= w.upcomingTasks
    ensures PredictSpec(w, daysBack).value.arousal
            <= PredictSpec(w.(upcomingTasks := more), daysBack).value.arousal
  {
    var w' := w.(upcomingTasks := more);
    assert RawArousal(w) <= RawArousal(w');
    ArousalClampInert(w);
    ArousalClampInert(w');
    Round3Monotone(RawArousal(w), RawArousal(w'));
  }

  /** Confidence is `min(1, (tasks + journal entries) / 20)`: 0 with no data,
      1 from 20 data points on. */
  lemma ConfidenceRule(w: Window, daysBack: int)
    requires daysBack != 0
    ensures var c := PredictSpec(w, daysBack).value.confidence;
      && (w.totalTasks == 0 && w.journalEntries == 0 ==> c == 0.0)
      && (w.totalTasks + w.journalEntries >= 20 ==> c == 1.0)
      && 0.0 <= c <= 1.0
  {
    Round3Within(Confidence(w), 0.0, 1.0);
    Round3OnGrid(0.0);
    Round3OnGrid(1.0);
  }

  /** No tasks: completion rate takes the neutral prior 0.5. */
  lemma EmptyWindow(w: Window, daysBack: int)
    requires daysBack > 0 && w.totalTasks == 0 && w.journalEntries == 0 && w.overdueTasks == 0
    ensures var r := PredictSpec(w, daysBack).value;
      && r.evidence.features.completionRate == 0.5
      && r.confidence == 0.0
      && r.valence == 0.0
  {
    assert RawValence(w, daysBack) == 0.0;
    Round3OnGrid(0.5);
    Round3OnGrid(0.0);
  }

  /** The features echo the raw counts, the rounded completion rate, the
      journaling frequency rounded to two decimals, and the task time. */
  lemma FeaturesRule(w: Window, daysBack: int)
    requires daysBack != 0
    ensures var f := PredictSpec(w, daysBack).value.evidence;
      && f.BehavioralFeatures?
      && f.features.upcomingTasks == w.upcomingTasks
      && f.features.overdueTasks == w.overdueTasks
      && f.features.totalTaskTime == w.totalTime
      && f.features.journalingFrequency == Round2(w.journalEntries as real / daysBack as real)
      && (Consistent(w) ==> 0.0 <= f.features.completionRate <= 1.0)
  {
    if Consistent(w) {
      Round3Within(CompletionRate(w), 0.0, 1.0);
    }
  }
}

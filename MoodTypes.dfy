/** The value objects the mood engine passes around: one estimate of
    (valence, arousal, confidence) with its component-specific evidence. */
module MoodTypes {

  /** One lexicon hit of the text analyzer. */
  datatype EmotionRecord = EmotionRecord(emotion: string, valence: real, arousal: real, negated: bool)

  /** The explanatory features of the behavioral predictor. */
  datatype Features = Features(
    completionRate: real,
    upcomingTasks: nat,
    overdueTasks: nat,
    journalingFrequency: real,
    totalTaskTime: int)

  /** The evidence payload, a closed variant per producing component. */
  datatype Evidence =
    | Emotions(records: seq<EmotionRecord>)
    | BehavioralFeatures(features: Features)

  datatype MoodEstimate = MoodEstimate(valence: real, arousal: real, confidence: real, evidence: Evidence)

  /** The three range invariants every produced estimate satisfies. */
  predicate InRange(e: MoodEstimate) {
    -1.0 <= e.valence <= 1.0 && 0.0 <= e.arousal <= 1.0 && 0.0 <= e.confidence <= 1.0
  }
}
